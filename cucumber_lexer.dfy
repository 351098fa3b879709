/**
 * `CucumberLexer`: a cursor over the feature text that skips blanks, reads
 * comments, tags, pipes and free text, and recognises keywords at the start
 * of the rest of a line through the keyword finder. The cursor keeps the
 * class of the current character and the location of the cursor in step
 * with its position.
 */
module CucumberLexing {
  import opened Common
  import opened Keywords
  import opened Matchers
  import opened LexerCharacters
  import opened Tokens

  /** `LexerContext`. Nothing in the lexer ever enters the table or doc-string context. */
  datatype LexerContext = NoContext | TableContext | DocStringContext

  /** `Location.start`: column 0 of line 1. */
  const Start: Location := Location(0, 1)

  /** The class of the character at `p`, `.none` at the end of the text. */
  function CharAt(text: string, p: nat): (r: LexerCharacter)
    ensures r == NoChar <==> p >= |text|
  {
    if p < |text| then FromChar(Some(text[p])) else NoChar
  }

  /** The characters `getNextToken` passes over without emitting anything. */
  const Skippable: set<LexerCharacter> := {Whitespace, NewLine, Tab}

  /**
   * The location after `advance(positions: k)` lands on `p`: a line break
   * there starts a new line at column 0; otherwise the column grows by `k`.
   */
  function Moved(text: string, loc: Location, p: nat, k: nat): (r: Location)
    ensures CharAt(text, p) == NewLine ==> r == Location(0, loc.line + 1)
    ensures CharAt(text, p) != NewLine ==> r == Location(loc.column + k, loc.line)
  {
    if CharAt(text, p) == NewLine then Location(0, loc.line + 1)
    else Location(loc.column + k, loc.line)
  }

  /**
   * The location the lexer holds with its cursor on `p`, having started at
   * `Location.start` with `advance(positions: 0)` and moved one character
   * at a time.
   */
  ghost function LocationAt(text: string, p: nat): (loc: Location)
    ensures loc.line >= 1 && loc.column >= 0
    decreases p
  {
    if p == 0 then Moved(text, Start, 0, 0) else Moved(text, LocationAt(text, p - 1), p, 1)
  }

  /** Lines never decrease as the cursor moves forward. */
  lemma {:induction false} LinesNeverDecrease(text: string, a: nat, b: nat)
    requires a <= b
    ensures LocationAt(text, a).line <= LocationAt(text, b).line
    decreases b - a
  {
    if a < b {
      LinesNeverDecrease(text, a, b - 1);
    }
  }

  /**
   * Jumping `k` characters at once, as a keyword does, ends at the same
   * location as `k` single steps when no line break is jumped over.
   */
  lemma {:induction false} JumpWithinLine(text: string, p: nat, k: nat)
    requires k >= 1
    requires forall i | p < i < p + k :: CharAt(text, i) != NewLine
    ensures Moved(text, LocationAt(text, p), p + k, k) == LocationAt(text, p + k)
  {
    if k > 1 {
      JumpWithinLine(text, p, k - 1);
    }
  }

  /** The end of the line that contains `p`: the next line break, or the end of the text. */
  function LineEnd(text: string, p: nat): (e: nat)
    requires p <= |text|
    ensures p <= e <= |text|
    ensures forall i | p <= i < e :: CharAt(text, i) != NewLine
    ensures e == |text| || CharAt(text, e) == NewLine
    decreases |text| - p
  {
    if p == |text| || CharAt(text, p) == NewLine then p else LineEnd(text, p + 1)
  }

  /** `characterLimitNotFound` negated: the limit, compared by representation, is here. */
  predicate LimitReached(c: LexerCharacter, limit: Option<LexerCharacter>) {
    limit.Some? && Representation(limit.value) == Representation(c)
  }

  /**
   * Where `extractAllAvoiding` stops when it starts at `from`: the first
   * position whose class is avoided or matches the limit.
   */
  function RunEnd(text: string, from: nat, avoid: set<LexerCharacter>, limit: Option<LexerCharacter>): (e: nat)
    requires from <= |text| && NoChar in avoid
    ensures from <= e <= |text|
    ensures forall i | from <= i < e :: CharAt(text, i) !in avoid && !LimitReached(CharAt(text, i), limit)
    ensures CharAt(text, e) in avoid || LimitReached(CharAt(text, e), limit)
    decreases |text| - from
  {
    if CharAt(text, from) in avoid || LimitReached(CharAt(text, from), limit) then from
    else RunEnd(text, from + 1, avoid, limit)
  }

  /** The representations of the characters in `[from, upTo)`. */
  function Rendered(text: string, from: nat, upTo: nat): (s: string)
    requires from <= upTo
    ensures |s| == upTo - from
    decreases upTo - from
  {
    if upTo == from then [] else Rendered(text, from, upTo - 1) + [Representation(CharAt(text, upTo - 1))]
  }

  /** Away from line breaks, rendering the classified characters gives the text back. */
  lemma {:induction false} RenderedIsText(text: string, from: nat, upTo: nat)
    requires from <= upTo <= |text|
    requires forall i | from <= i < upTo :: CharAt(text, i) != NewLine
    ensures Rendered(text, from, upTo) == text[from..upTo]
    decreases upTo - from
  {
    if upTo > from {
      RenderedIsText(text, from, upTo - 1);
      assert text[from..upTo] == text[from..upTo - 1] + [text[upTo - 1]];
    }
  }

  /** The context after blanks in `[a, b)` were skipped: a line break ends a table. */
  ghost function ContextAfter(context: LexerContext, text: string, a: nat, b: nat): LexerContext {
    if context == TableContext && exists i | a <= i < b :: CharAt(text, i) == NewLine then NoContext
    else context
  }

  /** A token read from the text: its type, its text, and where the cursor stops. */
  datatype Lexeme = Lexeme(tokenType: TokenType, value: Option<string>, end: nat)

  /**
   * The token `getNextToken` reads at `start`, once blanks are skipped:
   * a comment runs to the end of the line, a tag is the word after `@`, a
   * pipe is one character; other text is an expression up to the next pipe
   * or line break inside a table, an expression up to the line break or a
   * keyword found at the start of the rest of the line otherwise.
   */
  ghost function Scan(text: string, start: nat, context: LexerContext, tr: Translations): (r: Lexeme)
    requires start < |text| && CharAt(text, start) !in Skippable && WellFormedTable(tr)
    ensures start <= r.end <= |text| && !r.tokenType.Eof?
    ensures context != DocStringContext ==> start < r.end
    ensures forall i | start <= i < r.end :: CharAt(text, i) != NewLine
  {
    var c := CharAt(text, start);
    if c == Comment then
      var e := RunEnd(text, start + 1, {NoChar, NewLine}, None);
      Lexeme(Expression(text[start + 1..e]), Some(text[start + 1..e]), e)
    else if c == Tag then
      var e := RunEnd(text, start + 1, {NoChar, Whitespace, NewLine}, None);
      Lexeme(KeywordToken(TagKeyword(text[start + 1..e])), Some("@" + text[start + 1..e]), e)
    else if c == Pipe then
      Lexeme(KeywordToken(PipeKeyword), Some("|"), start + 1)
    else
      match context
      case TableContext =>
        var e := RunEnd(text, start, {NoChar, NewLine}, Some(Pipe));
        Lexeme(Expression(text[start..e]), Some(text[start..e]), e)
      case NoContext =>
        KeywordOrSentence(text, start, tr)
      case DocStringContext =>
        Lexeme(Expression(""), Some(""), start)
  }

  /**
   * A keyword match lies on the line at `start`: it is not empty, it ends
   * before the line does, and, unless it is a doc-string fence, it is
   * spelled by the text there.
   */
  ghost predicate FitsLine(text: string, start: nat, m: KeywordMatch)
    requires start <= |text|
  {
    && 0 < |m.value|
    && start + |m.value| <= LineEnd(text, start)
    && (!m.keyword.DocString? ==> text[start..start + |m.value|] == m.value)
  }

  /**
   * The token read at `start` given what the keyword finder found there: the
   * keyword, jumped over whole, or else the rest of the line.
   */
  ghost function ReadAt(text: string, start: nat, found: Option<KeywordMatch>): (r: Lexeme)
    requires start < |text| && CharAt(text, start) != NewLine
    requires found.Some? ==> FitsLine(text, start, found.value)
    ensures start < r.end <= LineEnd(text, start) && !r.tokenType.Eof?
    ensures !(r.tokenType.KeywordToken? && r.tokenType.keyword.DocString?) ==> r.value == Some(text[start..r.end])
  {
    match found
    case Some(m) => Lexeme(KeywordToken(m.keyword), Some(m.value), start + |m.value|)
    case None =>
      var e := RunEnd(text, start, {NoChar, NewLine}, None);
      Lexeme(Expression(text[start..e]), Some(text[start..e]), e)
  }

  /**
   * With a table without empty translations, a keyword the finder
   * recognises at the start of the rest of the line lies on that line.
   */
  lemma FoundKeywordLiesOnLine(text: string, start: nat, tr: Translations)
    requires start < |text| && WellFormedTable(tr)
    requires FindKeyword(text[start..LineEnd(text, start)], None, ConfigMatchers, tr).Some?
    ensures FitsLine(text, start, FindKeyword(text[start..LineEnd(text, start)], None, ConfigMatchers, tr).value)
  {
    FoundKeywordFitsLine(text[start..LineEnd(text, start)], None, tr);
    PrefixFitsLine(text, start, FindKeyword(text[start..LineEnd(text, start)], None, ConfigMatchers, tr).value);
  }

  /**
   * A non-empty match that is a prefix of the rest of the line (or a
   * doc-string fence no longer than it) lies on the line.
   */
  lemma PrefixFitsLine(text: string, start: nat, m: KeywordMatch)
    requires start <= |text|
    requires 0 < |m.value| <= |text[start..LineEnd(text, start)]|
    requires m.keyword.DocString? || StartsWith(text[start..LineEnd(text, start)], m.value)
    ensures FitsLine(text, start, m)
  {
    var e := LineEnd(text, start);
    if !m.keyword.DocString? {
      assert text[start..e][..|m.value|] == text[start..start + |m.value|];
    }
  }

  /**
   * Free text outside tables: the keyword the finder recognises at the
   * start of the rest of the line, or else the rest of the line.
   */
  ghost function KeywordOrSentence(text: string, start: nat, tr: Translations): (r: Lexeme)
    requires start < |text| && CharAt(text, start) != NewLine && WellFormedTable(tr)
  {
    var found := FindKeyword(text[start..LineEnd(text, start)], None, ConfigMatchers, tr);
    if found.Some? then
      FoundKeywordLiesOnLine(text, start, tr);
      ReadAt(text, start, found)
    else
      ReadAt(text, start, found)
  }

  /** A pipe is a token of its own, one character long. */
  lemma PipeIsOneCharacter(text: string, start: nat, context: LexerContext, tr: Translations)
    requires start < |text| && text[start] == '|' && WellFormedTable(tr)
    ensures Scan(text, start, context, tr) == Lexeme(KeywordToken(PipeKeyword), Some("|"), start + 1)
  {
  }

  /**
   * Inside a table, text is an expression that stops at the next pipe or
   * line break and contains neither.
   */
  lemma {:induction false} TableCellStopsAtPipe(text: string, start: nat, tr: Translations)
    requires start < |text| && CharAt(text, start) !in Skippable && WellFormedTable(tr)
    requires CharAt(text, start).Generic? || CharAt(text, start) == Colon
    ensures var r := Scan(text, start, TableContext, tr);
      && r.tokenType.Expression?
      && r.tokenType.content == text[start..r.end]
      && (forall i | 0 <= i < |r.tokenType.content| :: r.tokenType.content[i] !in {'|', '\n', '\r'})
      && (r.end == |text| || text[r.end] in {'|', '\n', '\r'})
  {
    var r := Scan(text, start, TableContext, tr);
    forall i | 0 <= i < |r.tokenType.content|
      ensures r.tokenType.content[i] !in {'|', '\n', '\r'}
    {
      assert r.tokenType.content[i] == text[start + i];
      assert CharAt(text, start + i) != Pipe;
    }
  }

  /** A jump that stays within the line ends where single steps would. */
  lemma JumpWithinLineEnd(text: string, start: nat, k: nat)
    requires start < |text| && 1 <= k && start + k <= LineEnd(text, start)
    ensures Moved(text, LocationAt(text, start), start + k, k) == LocationAt(text, start + k)
  {
    JumpWithinLine(text, start, k);
  }

  /** A found keyword other than a doc-string fence is spelled out at the cursor. */
  lemma KeywordValueIsSourceText(text: string, start: nat, tr: Translations)
    requires start < |text| && CharAt(text, start) != NewLine && WellFormedTable(tr)
    requires var r := KeywordOrSentence(text, start, tr);
      !(r.tokenType.KeywordToken? && r.tokenType.keyword.DocString?)
    ensures var r := KeywordOrSentence(text, start, tr); r.value == Some(text[start..r.end])
  {
  }

  /**
   * Away from doc strings and comments, the text of a token (other than a
   * doc-string fence) is exactly the stretch of input it was read from.
   */
  lemma ValueIsSourceText(text: string, start: nat, context: LexerContext, tr: Translations)
    requires start < |text| && CharAt(text, start) !in Skippable && WellFormedTable(tr)
    requires context != DocStringContext && CharAt(text, start) != Comment
    requires var r := Scan(text, start, context, tr);
      !(r.tokenType.KeywordToken? && r.tokenType.keyword.DocString?)
    ensures var r := Scan(text, start, context, tr); r.value == Some(text[start..r.end])
  {
    var c := CharAt(text, start);
    var r := Scan(text, start, context, tr);
    assert c == FromChar(Some(text[start]));
    if c == Tag {
      assert text[start] == '@';
      assert text[start..r.end] == [text[start]] + text[start + 1..r.end];
    } else if c == Pipe {
      assert text[start] == '|';
      assert text[start..start + 1] == [text[start]];
    } else if context == NoContext {
      KeywordValueIsSourceText(text, start, tr);
    }
  }

  /** The first position from `p` that the loop of `getNextToken` does not skip, or the end. */
  function BlanksEnd(text: string, p: nat): (e: nat)
    requires p <= |text|
    ensures p <= e <= |text|
    ensures forall i | p <= i < e :: CharAt(text, i) in Skippable
    ensures e < |text| ==> CharAt(text, e) !in Skippable
    decreases |text| - p
  {
    if p == |text| || CharAt(text, p) !in Skippable then p else BlanksEnd(text, p + 1)
  }

  /** Any position reached over skippable characters only, and stopping at the first other one, is `BlanksEnd`. */
  lemma BlanksEndIsFirst(text: string, p: nat, s: nat)
    requires p <= s <= |text|
    requires forall i | p <= i < s :: CharAt(text, i) in Skippable
    requires s < |text| ==> CharAt(text, s) !in Skippable
    ensures s == BlanksEnd(text, p)
  {
  }

  /**
   * The tokens `getNextToken` returns, call after call, from `p` in
   * `context`, up to and including the first EOF: blanks are skipped (a line
   * break ends a table), `Scan` reads a token at the first other character,
   * and EOF comes at the end of the text.
   */
  ghost function Lex(text: string, p: nat, context: LexerContext, tr: Translations): (ts: seq<Token>)
    requires p <= |text| && context != DocStringContext && WellFormedTable(tr)
    decreases |text| - p
  {
    var s := BlanksEnd(text, p);
    if s == |text| then [Token(Eof, None, LocationAt(text, |text|))]
    else
      var context' := ContextAfter(context, text, p, s);
      var lx := Scan(text, s, context', tr);
      [Token(lx.tokenType, lx.value, LocationAt(text, s))] + Lex(text, lx.end, context', tr)
  }

  /** At the end of the text, only EOF is left. */
  lemma LexAtEnd(text: string, p: nat, context: LexerContext, tr: Translations)
    requires p <= |text| && context != DocStringContext && WellFormedTable(tr)
    requires BlanksEnd(text, p) == |text|
    ensures Lex(text, p, context, tr) == [Token(Eof, None, LocationAt(text, |text|))]
  {
  }

  /** Before the end of the text, the token `Scan` reads comes first. */
  lemma LexAtToken(text: string, p: nat, context: LexerContext, tr: Translations)
    requires p <= |text| && context != DocStringContext && WellFormedTable(tr)
    requires BlanksEnd(text, p) < |text|
    ensures var s := BlanksEnd(text, p);
      var context' := ContextAfter(context, text, p, s);
      var lx := Scan(text, s, context', tr);
      Lex(text, p, context, tr) == [Token(lx.tokenType, lx.value, LocationAt(text, s))] + Lex(text, lx.end, context', tr)
  {
  }

  /**
   * One call of `getNextToken` as `Lex` sees it: the token read after the
   * blanks up to `start` heads the list, and the rest is lexed from where
   * the call stopped, in the context the blanks left.
   */
  lemma LexStep(text: string, p: nat, context: LexerContext, tr: Translations,
                start: nat, token: Token, end: nat, context': LexerContext)
    requires p <= start <= |text| && context != DocStringContext && WellFormedTable(tr)
    requires forall i | p <= i < start :: CharAt(text, i) in Skippable
    requires context' == ContextAfter(context, text, p, start)
    requires token.tokenType.Eof? ==> start == |text| && token == Token(Eof, None, LocationAt(text, |text|))
    requires !token.tokenType.Eof? ==>
      && start < |text| && CharAt(text, start) !in Skippable
      && var lx := Scan(text, start, context', tr);
      && token == Token(lx.tokenType, lx.value, LocationAt(text, start)) && end == lx.end
    ensures !token.tokenType.Eof? ==> start < end <= |text| && context' != DocStringContext
    ensures Lex(text, p, context, tr) == [token] + (if token.tokenType.Eof? then [] else Lex(text, end, context', tr))
  {
    BlanksEndIsFirst(text, p, start);
    if token.tokenType.Eof? {
      LexAtEnd(text, p, context, tr);
    } else {
      LexAtToken(text, p, context, tr);
    }
  }

  /** The list ends with `last`, an EOF, and has no EOF before it. */
  predicate EndsWithOnlyEof(ts: seq<Token>, last: Token) {
    |ts| >= 1 && ts[|ts| - 1] == last && forall i | 0 <= i < |ts| - 1 :: !ts[i].tokenType.Eof?
  }

  lemma ConsEndsWithOnlyEof(head: Token, rest: seq<Token>, last: Token)
    requires !head.tokenType.Eof? && EndsWithOnlyEof(rest, last)
    ensures EndsWithOnlyEof([head] + rest, last)
  {
    var ts := [head] + rest;
    assert forall i | 1 <= i < |ts| :: ts[i] == rest[i - 1];
  }

  /** The token list ends with the one EOF, at the end of the text, and has no EOF before it. */
  lemma {:induction false} LexEndsWithEof(text: string, p: nat, context: LexerContext, tr: Translations)
    requires p <= |text| && context != DocStringContext && WellFormedTable(tr)
    ensures EndsWithOnlyEof(Lex(text, p, context, tr), Token(Eof, None, LocationAt(text, |text|)))
    decreases |text| - p
  {
    var s := BlanksEnd(text, p);
    if s < |text| {
      var context' := ContextAfter(context, text, p, s);
      var lx := Scan(text, s, context', tr);
      LexAtToken(text, p, context, tr);
      LexEndsWithEof(text, lx.end, context', tr);
      ConsEndsWithOnlyEof(Token(lx.tokenType, lx.value, LocationAt(text, s)), Lex(text, lx.end, context', tr),
        Token(Eof, None, LocationAt(text, |text|)));
    } else {
      LexAtEnd(text, p, context, tr);
    }
  }

  /** Every token lies on line `line` or later, and token lines never decrease. */
  predicate LinesFrom(ts: seq<Token>, line: int) {
    && (forall i | 0 <= i < |ts| :: line <= ts[i].location.line)
    && (forall i, j | 0 <= i <= j < |ts| :: ts[i].location.line <= ts[j].location.line)
  }

  lemma ConsLinesFrom(head: Token, rest: seq<Token>, line: int)
    requires line <= head.location.line && LinesFrom(rest, head.location.line)
    ensures LinesFrom([head] + rest, line)
  {
    var ts := [head] + rest;
    assert forall i | 1 <= i < |ts| :: ts[i] == rest[i - 1];
  }

  /** Every token lies on the line of `p` or later, and token lines never decrease. */
  lemma {:induction false} LexLinesInOrder(text: string, p: nat, context: LexerContext, tr: Translations)
    requires p <= |text| && context != DocStringContext && WellFormedTable(tr)
    ensures LinesFrom(Lex(text, p, context, tr), LocationAt(text, p).line)
    decreases |text| - p
  {
    var s := BlanksEnd(text, p);
    LinesNeverDecrease(text, p, s);
    if s < |text| {
      var context' := ContextAfter(context, text, p, s);
      var lx := Scan(text, s, context', tr);
      LexAtToken(text, p, context, tr);
      LexLinesInOrder(text, lx.end, context', tr);
      LinesNeverDecrease(text, s, lx.end);
      var rest := Lex(text, lx.end, context', tr);
      assert LinesFrom(rest, LocationAt(text, s).line);
      ConsLinesFrom(Token(lx.tokenType, lx.value, LocationAt(text, s)), rest, LocationAt(text, p).line);
    } else {
      LexAtEnd(text, p, context, tr);
    }
  }

  /** The token carries the text from `s` to `e`, or, for a comment, the text after its `#`. */
  ghost predicate CarriesText(text: string, t: Token, s: nat, e: nat)
    requires s < e <= |text|
  {
    && t.location == LocationAt(text, s)
    && (t.value == Some(text[s..e]) || (text[s] == '#' && t.value == Some(text[s + 1..e])))
  }

  /** The token, unless it is a doc-string fence, carries some stretch of the text from `p` on. */
  ghost predicate CarriesTextFrom(text: string, t: Token, p: nat) {
    !IsDocStringKeyword(t) ==> exists s, e | p <= s < e <= |text| :: CarriesText(text, t, s, e)
  }

  /** Every token but the last carries a stretch of the text from `p` on. */
  ghost predicate AllCarryTextFrom(text: string, ts: seq<Token>, p: nat) {
    forall i | 0 <= i < |ts| - 1 :: CarriesTextFrom(text, ts[i], p)
  }

  lemma ConsAllCarryTextFrom(text: string, head: Token, rest: seq<Token>, p: nat, q: nat)
    requires p <= q && CarriesTextFrom(text, head, p) && AllCarryTextFrom(text, rest, q)
    ensures AllCarryTextFrom(text, [head] + rest, p)
  {
    var ts := [head] + rest;
    forall i | 1 <= i < |ts| - 1 ensures CarriesTextFrom(text, ts[i], p) {
      assert ts[i] == rest[i - 1];
      if !IsDocStringKeyword(ts[i]) {
        var s, e :| q <= s < e <= |text| && CarriesText(text, rest[i - 1], s, e);
      }
    }
  }

  /** The token `Scan` reads at `s`, unless it is a doc-string fence, carries the text it was read from. */
  lemma ScannedTokenCarriesText(text: string, s: nat, context: LexerContext, tr: Translations)
    requires s < |text| && CharAt(text, s) !in Skippable && WellFormedTable(tr)
    requires context != DocStringContext
    ensures var lx := Scan(text, s, context, tr); var t := Token(lx.tokenType, lx.value, LocationAt(text, s));
      s < lx.end && (!IsDocStringKeyword(t) ==> CarriesText(text, t, s, lx.end))
  {
    if CharAt(text, s) == Comment {
      assert text[s] == '#';
    } else {
      var lx := Scan(text, s, context, tr);
      if !(lx.tokenType.KeywordToken? && lx.tokenType.keyword.DocString?) {
        ValueIsSourceText(text, s, context, tr);
      }
    }
  }

  /**
   * Every token of the list but the final EOF and doc-string fences carries
   * a stretch of the input from `p` on, read at the token's own location.
   */
  lemma {:induction false} LexValuesAreSourceText(text: string, p: nat, context: LexerContext, tr: Translations)
    requires p <= |text| && context != DocStringContext && WellFormedTable(tr)
    ensures AllCarryTextFrom(text, Lex(text, p, context, tr), p)
    decreases |text| - p
  {
    var s := BlanksEnd(text, p);
    if s < |text| {
      var context' := ContextAfter(context, text, p, s);
      var lx := Scan(text, s, context', tr);
      var head := Token(lx.tokenType, lx.value, LocationAt(text, s));
      LexAtToken(text, p, context, tr);
      ScannedTokenCarriesText(text, s, context', tr);
      assert CarriesTextFrom(text, head, p) by {
        if !IsDocStringKeyword(head) {
          assert CarriesText(text, head, s, lx.end);
        }
      }
      LexValuesAreSourceText(text, lx.end, context', tr);
      ConsAllCarryTextFrom(text, head, Lex(text, lx.end, context', tr), p, lx.end);
    } else {
      LexAtEnd(text, p, context, tr);
    }
  }

  /**
   * The intended cursor of `parse`: what `parse` resets before lexing from
   * the start, and what it puts back afterwards.
   */
  datatype Cursor = Cursor(position: nat, current: LexerCharacter, context: LexerContext, location: Location)

  /** The character and the location belong to the position. */
  ghost predicate Synchronised(text: string, c: Cursor) {
    c.position <= |text| && c.current == CharAt(text, c.position) && c.location == LocationAt(text, c.position)
  }

  /** The reset `parse` performs as written: only the position goes back to the start. */
  function ResetAsWritten(c: Cursor): (r: Cursor)
    ensures r.position == 0 && r.current == c.current && r.location == c.location && r.context == c.context
  {
    c.(position := 0)
  }

  /** The reset as intended: the cursor `init(feature:)` creates. */
  ghost function ResetCursor(text: string): (r: Cursor)
    ensures Synchronised(text, r) && r.position == 0 && r.context == NoContext
  {
    Cursor(0, CharAt(text, 0), NoContext, LocationAt(text, 0))
  }

  /**
   * After the first token of "a\nb" the cursor is on the line break; the
   * as-written reset leaves that line break as the current character at
   * position 0, so `parse` would skip it and never emit the expression "a".
   */
  lemma ResetAsWrittenDesynchronises()
    ensures var text := "a\nb";
      var after := Cursor(1, NewLine, NoContext, LocationAt(text, 1));
      && Synchronised(text, after)
      && !Synchronised(text, ResetAsWritten(after))
      && Synchronised(text, ResetCursor(text))
  {
    var text := "a\nb";
    assert CharAt(text, 1) == NewLine;
    assert CharAt(text, 0) == Generic('a');
  }

  /**
   * `peek(until:)` as written, with the line-break test of the lexer. The
   * `repeat ... while` loop goes round again only while the test holds, so
   * at a character that is not a line break it stops after one step, and
   * the prefix it returns runs from the very start of the document through
   * the current character. It answers nothing only at the end of the text.
   * At a line break the loop never ends; `getNextToken` never peeks there.
   */
  function PeekLineAsWritten(text: string, position: nat): (r: Option<string>)
    requires position <= |text| && CharAt(text, position) != NewLine
    ensures r.None? <==> position == |text|
    ensures r.Some? ==> |r.value| == position + 1 && r.value <= text && r.value[position] == text[position]
  {
    if position == |text| then None else Some(text[..position + 1])
  }

  /**
   * On "AB\n" the as-written peek yields "A" where the rest of the line is
   * "AB"; on the second line of "A\nB" it yields "A\nB", the first line
   * included, where the rest of the line is "B".
   */
  lemma PeekLineAsWrittenCounterexamples()
    ensures PeekLineAsWritten("AB\n", 0) == Some("A")
    ensures "AB\n"[0..LineEnd("AB\n", 0)] == "AB"
    ensures PeekLineAsWritten("A\nB", 2) == Some("A\nB")
    ensures "A\nB"[2..LineEnd("A\nB", 2)] == "B"
  {
    assert CharAt("AB\n", 0) == Generic('A');
    assert CharAt("AB\n", 1) == Generic('B');
    assert CharAt("AB\n", 2) == NewLine;
    assert LineEnd("AB\n", 0) == 2;
    assert "AB\n"[..1] == "A";
    assert CharAt("A\nB", 2) == Generic('B');
    assert LineEnd("A\nB", 2) == 3;
    assert "A\nB"[..3] == "A\nB";
  }

  class CucumberLexer {
    const text: string
    /** The keyword table the keyword finder consults. */
    const translations: Translations
    var position: nat
    var currentChar: LexerCharacter
    var currentContext: LexerContext
    var currentLocation: Location

    /**
     * The cursor is within the text, and the current character and the
     * current location are those of its position.
     */
    ghost predicate Valid()
      reads this
    {
      && position <= |text|
      && currentChar == CharAt(text, position)
      && currentLocation == LocationAt(text, position)
      && WellFormedTable(translations)
    }

    /** `init(feature:)`: the cursor on the first character. */
    constructor (feature: string, table: Translations)
      requires WellFormedTable(table)
      ensures Valid()
      ensures text == feature && translations == table
      ensures position == 0 && currentContext == NoContext
    {
      text := feature;
      translations := table;
      position := 0;
      currentChar := NoChar;
      currentContext := NoContext;
      currentLocation := Start;
      new;
      Advance(0);
    }

    /**
     * `advance(positions:)`: moves the cursor, reclassifies the current
     * character, and moves the location to the start of the next line when
     * the new character is a line break, or `positions` columns right.
     */
    method Advance(positions: nat)
      requires position + positions <= |text|
      modifies this
      ensures position == old(position) + positions
      ensures currentChar == CharAt(text, position)
      ensures currentLocation == Moved(text, old(currentLocation), position, positions)
      ensures currentContext == old(currentContext)
    {
      position := position + positions;
      if position == |text| {
        currentChar := NoChar;
      } else {
        currentChar := FromChar(Some(text[position]));
      }
      if currentChar == NewLine {
        currentLocation := Location(0, currentLocation.line + 1);
      } else {
        currentLocation := Location(currentLocation.column + positions, currentLocation.line);
      }
    }

    /** `skip(characterSet:)`: passes over characters of the given classes. */
    method Skip(chars: set<LexerCharacter>)
      requires Valid()
      modifies this
      ensures Valid() && currentContext == old(currentContext)
      ensures old(position) <= position
      ensures forall i | old(position) <= i < position :: CharAt(text, i) in chars
      ensures currentChar == NoChar || currentChar !in chars
      ensures old(currentChar) != NoChar && old(currentChar) in chars ==> old(position) < position
    {
      while currentChar != NoChar && currentChar in chars
        invariant Valid() && currentContext == old(currentContext)
        invariant old(position) <= position
        invariant forall i | old(position) <= i < position :: CharAt(text, i) in chars
        invariant old(currentChar) != NoChar && old(currentChar) in chars ==> old(position) < position || position == old(position)
        decreases |text| - position
      {
        Advance(1);
      }
    }

    /**
     * `extractAllAvoiding(chars:limitAt:)`: collects characters until one of
     * an avoided class, or one whose representation is the limit's.
     */
    method ExtractAllAvoiding(avoid: set<LexerCharacter>, limit: Option<LexerCharacter>) returns (result: string)
      requires Valid() && NoChar in avoid
      modifies this
      ensures Valid() && currentContext == old(currentContext)
      ensures position == RunEnd(text, old(position), avoid, limit)
      ensures result == Rendered(text, old(position), position)
    {
      result := "";
      while currentChar !in avoid && !LimitReached(currentChar, limit)
        invariant Valid() && currentContext == old(currentContext)
        invariant old(position) <= position <= RunEnd(text, old(position), avoid, limit)
        invariant result == Rendered(text, old(position), position)
        decreases |text| - position
      {
        result := result + [Representation(currentChar)];
        Advance(1);
      }
    }

    /** `sentence(limitAt:)`: the rest of the line, or up to the limit. */
    method Sentence(limit: Option<LexerCharacter>) returns (s: string)
      requires Valid()
      modifies this
      ensures Valid() && currentContext == old(currentContext)
      ensures position == RunEnd(text, old(position), {NoChar, NewLine}, limit)
      ensures s == text[old(position)..position]
    {
      s := ExtractAllAvoiding({NoChar, NewLine}, limit);
      RenderedIsText(text, old(position), position);
    }

    /** `word(limitAt:)`: up to the next blank or line break. */
    method Word(limit: Option<LexerCharacter>) returns (w: string)
      requires Valid()
      modifies this
      ensures Valid() && currentContext == old(currentContext)
      ensures position == RunEnd(text, old(position), {NoChar, Whitespace, NewLine}, limit)
      ensures w == text[old(position)..position]
    {
      w := ExtractAllAvoiding({NoChar, Whitespace, NewLine}, limit);
      RenderedIsText(text, old(position), position);
    }

    /**
     * `peek(until:)` with the line-break test, as intended: the rest of the
     * current line from the cursor, whether or not a line break ends it.
     */
    method PeekLine() returns (line: string)
      requires Valid()
      ensures line == text[position..LineEnd(text, position)]
    {
      var offset := 0;
      while position + offset < |text| && CharAt(text, position + offset) != NewLine
        invariant position + offset <= LineEnd(text, position)
        decreases |text| - position - offset
      {
        offset := offset + 1;
      }
      line := text[position..position + offset];
    }

    /**
     * The free-text branch of `getNextToken` outside tables: peeks at the
     * rest of the line, and either jumps over the keyword found there or
     * reads the rest of the line as an expression.
     */
    method ReadKeywordOrSentence() returns (token: Token)
      requires Valid() && position < |text| && currentChar != NewLine
      modifies this
      ensures Valid() && currentContext == old(currentContext)
      ensures var lx := KeywordOrSentence(text, old(position), translations);
        token == Token(lx.tokenType, lx.value, old(currentLocation)) && position == lx.end
    {
      var line := PeekLine();
      var found := FindKeyword(line, None, ConfigMatchers, translations);
      if found.Some? {
        FoundKeywordLiesOnLine(text, position, translations);
      }
      token := ReadFound(found);
    }

    /** What the free-text branch does with the keyword found, if any. */
    method ReadFound(found: Option<KeywordMatch>) returns (token: Token)
      requires Valid() && position < |text| && currentChar != NewLine
      requires found.Some? ==> FitsLine(text, position, found.value)
      modifies this
      ensures Valid() && currentContext == old(currentContext)
      ensures var lx := ReadAt(text, old(position), found);
        token == Token(lx.tokenType, lx.value, old(currentLocation)) && position == lx.end
    {
      var location := currentLocation;
      match found {
        case None =>
          var content := Sentence(None);
          token := Token(Expression(content), Some(content), location);
        case Some(m) =>
          JumpWithinLineEnd(text, position, |m.value|);
          Advance(|m.value|);
          token := Token(KeywordToken(m.keyword), Some(m.value), location);
      }
    }

    /**
     * The token-reading branches of `getNextToken`, entered on a character
     * that is not skipped: the token `Scan` describes, at the cursor's
     * location.
     */
    method ReadToken() returns (token: Token)
      requires Valid() && position < |text| && currentChar !in Skippable
      modifies this
      ensures Valid() && currentContext == old(currentContext)
      ensures var lx := Scan(text, old(position), currentContext, translations);
        token == Token(lx.tokenType, lx.value, old(currentLocation)) && position == lx.end
    {
      var location := currentLocation;
      if currentChar == Comment {
        Advance(1);
        var content := Sentence(None);
        token := Token(Expression(content), Some(content), location);
      } else if currentChar == Tag {
        // A character is always left here, so the `@`-only branch of the
        // source cannot be taken.
        Advance(1);
        var name := Word(None);
        token := Token(KeywordToken(TagKeyword(name)), Some("@" + name), location);
      } else if currentChar == Pipe {
        Advance(1);
        token := Token(KeywordToken(PipeKeyword), Some("|"), location);
      } else {
        match currentContext {
          case TableContext =>
            var content := Sentence(Some(Pipe));
            token := Token(Expression(content), Some(content), location);
          case NoContext =>
            token := ReadKeywordOrSentence();
          case DocStringContext =>
            token := Token(Expression(""), Some(""), location);
        }
      }
    }

    /**
     * The skipping part of `getNextToken`'s loop: passes over blanks, tabs
     * and line breaks (a line break ends the table context) and stops at
     * the first other character or at the end of the text.
     */
    method SkipBlanks()
      requires Valid()
      modifies this
      ensures Valid()
      ensures old(position) <= position
      ensures forall i | old(position) <= i < position :: CharAt(text, i) in Skippable
      ensures currentContext == ContextAfter(old(currentContext), text, old(position), position)
      ensures currentChar == NoChar || currentChar !in Skippable
    {
      while currentChar != NoChar && currentChar in Skippable
        invariant Valid()
        invariant old(position) <= position
        invariant forall i | old(position) <= i < position :: CharAt(text, i) in Skippable
        invariant currentContext == ContextAfter(old(currentContext), text, old(position), position)
        decreases |text| - position
      {
        if currentChar == Whitespace {
          Skip({Whitespace});
        } else if currentChar == NewLine {
          ghost var p := position;
          if currentContext == TableContext {
            currentContext := NoContext;
          }
          Skip({NewLine});
          assert CharAt(text, p) == NewLine;
        } else {
          Advance(1);
        }
      }
    }

    /**
     * `getNextToken`: skips blanks, tabs and line breaks (a line break ends
     * the table context), then reads one token at `start`; at the end of the
     * text it returns EOF at the current location, as often as it is asked.
     */
    method GetNextToken() returns (token: Token, ghost start: nat)
      requires Valid()
      modifies this
      ensures Valid()
      ensures old(position) <= start <= position
      ensures forall i | old(position) <= i < start :: CharAt(text, i) in Skippable
      ensures currentContext == ContextAfter(old(currentContext), text, old(position), start)
      ensures token.tokenType.Eof? ==> start == position == |text| && token == Token(Eof, None, currentLocation)
      ensures old(position) == |text| ==> token == Token(Eof, None, old(currentLocation)) && position == |text|
      ensures !token.tokenType.Eof? ==>
        && start < |text| && CharAt(text, start) !in Skippable
        && var lx := Scan(text, start, currentContext, translations);
        && token == Token(lx.tokenType, lx.value, LocationAt(text, start))
        && position == lx.end
    {
      SkipBlanks();
      start := position;
      if currentChar == NoChar {
        token := Token(Eof, None, currentLocation);
      } else {
        token := ReadToken();
      }
    }

    /**
     * The loop of `parse`: calls `getNextToken` until it returns EOF, and
     * collects the tokens, EOF included, as `Lex` describes them from the
     * cursor.
     */
    method TokensUntilEof() returns (tokens: seq<Token>)
      requires Valid() && currentContext != DocStringContext
      modifies this
      ensures Valid()
      ensures tokens == Lex(text, old(position), old(currentContext), translations)
    {
      ghost var whole := Lex(text, position, currentContext, translations);
      tokens := [];
      while true
        invariant Valid() && currentContext != DocStringContext
        invariant tokens + Lex(text, position, currentContext, translations) == whole
        decreases |text| - position
      {
        ghost var before, context := position, currentContext;
        var next, start := GetNextToken();
        LexStep(text, before, context, translations, start, next, position, currentContext);
        ghost var rest := if next.tokenType.Eof? then [] else Lex(text, position, currentContext, translations);
        assert tokens + ([next] + rest) == whole;
        tokens := tokens + [next];
        assert tokens + rest == whole;
        if next.tokenType.Eof? {
          break;
        }
      }
    }

    /**
     * `parse`: lexes the whole text from the start, up to and including the
     * first EOF, as `Lex` describes, and leaves the cursor as it found it.
     * The one EOF comes last, and token lines never decrease.
     */
    method Parse() returns (tokens: seq<Token>)
      requires Valid()
      modifies this
      ensures Valid()
      ensures position == old(position) && currentChar == old(currentChar)
      ensures currentContext == old(currentContext) && currentLocation == old(currentLocation)
      ensures tokens == Lex(text, 0, NoContext, translations)
      ensures EndsWithOnlyEof(tokens, Token(Eof, None, LocationAt(text, |text|)))
      ensures LinesFrom(tokens, LocationAt(text, 0).line)
    {
      var lastPosition, lastChar, lastContext, lastLocation := position, currentChar, currentContext, currentLocation;
      position, currentContext, currentLocation := 0, NoContext, Start;
      Advance(0);
      tokens := TokensUntilEof();
      LexEndsWithEof(text, 0, NoContext, translations);
      LexLinesInOrder(text, 0, NoContext, translations);
      position, currentChar, currentContext, currentLocation := lastPosition, lastChar, lastContext, lastLocation;
    }
  }
}
