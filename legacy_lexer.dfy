/**
 * The older `Lexer`: a cursor over the feature text that emits words,
 * keywords recognised by exact spelling, parameters, tags, punctuation,
 * line breaks and, after the first word of a line, runs of spaces.
 */
module LegacyLexing {
  import opened Common
  import opened LegacyTokens

  /** `isSpace`: only the space character. */
  predicate IsSpace(c: char) {
    c == ' '
  }

  /** `isNewLine`. */
  predicate IsNewLineChar(c: char) {
    c == '\n' || c == '\r'
  }

  /** The character under a cursor at `p`; none at the end of the text. */
  function CurrentAt(text: string, p: nat): (r: Option<char>)
    ensures r.None? <==> p >= |text|
  {
    if p < |text| then Some(text[p]) else None
  }

  /** The first position from `from` that holds `c`, or the end of the text. */
  function IndexOfFrom(text: string, from: nat, c: char): (i: nat)
    requires from <= |text|
    ensures from <= i <= |text|
    ensures forall j | from <= j < i :: text[j] != c
    ensures i < |text| ==> text[i] == c
    decreases |text| - from
  {
    if from == |text| || text[from] == c then from else IndexOfFrom(text, from + 1, c)
  }

  /** The first position from `from` that is not a space. */
  function SpacesEnd(text: string, from: nat): (i: nat)
    requires from <= |text|
    ensures from <= i <= |text|
    ensures forall j | from <= j < i :: IsSpace(text[j])
    ensures i < |text| ==> !IsSpace(text[i])
    decreases |text| - from
  {
    if from == |text| || !IsSpace(text[from]) then from else SpacesEnd(text, from + 1)
  }

  /** The first position from `from` that holds a space or a line break. */
  function WordEnd(text: string, from: nat): (i: nat)
    requires from <= |text|
    ensures from <= i <= |text|
    ensures forall j | from <= j < i :: !IsSpace(text[j]) && !IsNewLineChar(text[j])
    ensures i < |text| ==> IsSpace(text[i]) || IsNewLineChar(text[i])
    decreases |text| - from
  {
    if from == |text| || IsSpace(text[from]) || IsNewLineChar(text[from]) then from
    else WordEnd(text, from + 1)
  }

  /** The first position from `from` that holds `c` or a line break. */
  function PeekEnd(text: string, from: nat, c: char): (i: nat)
    requires from <= |text|
    ensures from <= i <= |text|
    ensures forall j | from <= j < i :: text[j] != c && !IsNewLineChar(text[j])
    ensures i < |text| ==> text[i] == c || IsNewLineChar(text[i])
    decreases |text| - from
  {
    if from == |text| || text[from] == c || IsNewLineChar(text[from]) then from
    else PeekEnd(text, from + 1, c)
  }

  /** The outcomes of `peek(until:)`. */
  datatype Peeked = NothingPeeked | PeekedWord(word: string) | PeekThrew | PeekTrapped

  /**
   * `peek(until:)` as written: the text after the cursor up to `c` or a
   * line break. When no such character is left, the check that should
   * throw reads the character at the end index, which traps.
   */
  function PeekUntilAsWritten(text: string, position: nat, c: char): (r: Peeked)
    requires position < |text|
    ensures r == PeekTrapped <==> position + 1 < |text| && PeekEnd(text, position + 1, c) == |text|
  {
    var next := position + 1;
    if next == |text| then NothingPeeked
    else
      var e := PeekEnd(text, next, c);
      if e == |text| then PeekTrapped
      else if e == next then NothingPeeked
      else PeekedWord(text[next..e])
  }

  /**
   * `peek(until:)` as intended: when neither `c` nor a line break is left,
   * it throws `cannotPeekUntilNotExistentChar`. A word is returned only when
   * it is not empty; it is the text strictly between the cursor and the
   * first `c` or line break.
   */
  function PeekResult(text: string, position: nat, c: char): (r: Peeked)
    requires position < |text|
    ensures r != PeekTrapped
    ensures r == PeekThrew <==> position + 1 < |text| && PeekEnd(text, position + 1, c) == |text|
    ensures r.PeekedWord? ==>
      var e := position + 1 + |r.word|;
      && r.word != [] && e < |text| && r.word == text[position + 1..e]
      && (text[e] == c || IsNewLineChar(text[e]))
      && forall j | 0 <= j < |r.word| :: r.word[j] != c && !IsNewLineChar(r.word[j])
  {
    var next := position + 1;
    if next == |text| then NothingPeeked
    else
      var e := PeekEnd(text, next, c);
      if e == |text| then PeekThrew
      else if e == next then NothingPeeked
      else PeekedWord(text[next..e])
  }

  /** The two agree except where the written one traps and the intended one throws. */
  lemma PeekDiffersOnlyByTrap(text: string, position: nat, c: char)
    requires position < |text|
    ensures PeekUntilAsWritten(text, position, c) == PeekTrapped <==> PeekResult(text, position, c) == PeekThrew
    ensures PeekUntilAsWritten(text, position, c) != PeekTrapped ==>
      PeekUntilAsWritten(text, position, c) == PeekResult(text, position, c)
  {
  }

  /** An unclosed `<ab` at the end of the text traps where it should fall back to a word. */
  lemma PeekAsWrittenTrapsOnUnclosedParameter()
    ensures PeekUntilAsWritten("<ab", 0, '>') == PeekTrapped
    ensures PeekResult("<ab", 0, '>') == PeekThrew
  {
    assert PeekEnd("<ab", 1, '>') == 3 by {
      assert PeekEnd("<ab", 3, '>') == 3;
      assert PeekEnd("<ab", 2, '>') == 3;
    }
  }

  /** What a parameter opener leads to: the parameter token, if any, and where the cursor ends. */
  datatype Attempt = Attempt(found: Option<Token>, after: nat)

  /**
   * The parameter branch of `getNextToken` at an opener `<` or `"`: a
   * non-empty peeked word up to the closing character (or line break), then
   * the cursor moves past the next closing character anywhere ahead. When
   * that character is missing, `advance(until:)` has already moved the
   * cursor to the end before its error is caught.
   */
  ghost function ParameterAttempt(text: string, s: nat): (r: Attempt)
    requires s < |text| && (text[s] == '<' || text[s] == '"')
    ensures r.found.None? ==> r.after == s || r.after == |text|
    ensures r.found.Some? ==> s < r.after <= |text|
    ensures r.found.Some? ==> (r.found.value.ExampleParameter? <==> text[s] == '<')
    ensures r.found.Some? ==> (r.found.value.ExampleParameter? || r.found.value.Parameter?)
  {
    var closing := if text[s] == '<' then '>' else '"';
    match PeekResult(text, s, closing)
    case PeekedWord(w) =>
      var q := IndexOfFrom(text, if closing == '>' then s else s + 1, closing);
      if q == |text| then Attempt(None, |text|)
      else Attempt(Some(if closing == '>' then ExampleParameter(w) else Parameter(w)), q + 1)
    case _ => Attempt(None, s)
  }

  /** A token read at `s`, and where the cursor stops. */
  datatype Read = Read(token: Token, end: nat)

  /** A word read at `p` and classified. */
  ghost function WordAt(text: string, p: nat): (r: Read)
    requires p <= |text|
    ensures p <= r.end <= |text|
  {
    var e := WordEnd(text, p);
    Read(ClassifyWord(text[p..e]), e)
  }

  /**
   * The token `getNextToken` reads at a character `s` that is not a space,
   * once no run of spaces is pending.
   */
  ghost function ReadAt(text: string, s: nat): (r: Read)
    requires s < |text| && !IsSpace(text[s])
    ensures s < r.end <= |text|
  {
    var c := text[s];
    if c == '#' then
      var nl := IndexOfFrom(text, s, '\n');
      if nl < |text| then Read(NewLine, nl + 1) else Read(Eof, nl)
    else if IsNewLineChar(c) then Read(NewLine, s + 1)
    else if c == '@' then
      var e := WordEnd(text, s + 1);
      Read(Tag(text[s + 1..e]), e)
    else if c == '|' then Read(Pipe, s + 1)
    else if c == ':' then Read(Colon, s + 1)
    else if c == '<' || c == '"' then
      var a := ParameterAttempt(text, s);
      if a.found.Some? then Read(a.found.value, a.after) else WordAt(text, a.after)
    else WordAt(text, s)
  }

  /**
   * A comment runs to the next `\n`: the token is a line break just past it,
   * or EOF at the end when the comment is on the last line.
   */
  lemma CommentRunsToLineBreak(text: string, s: nat)
    requires s < |text| && text[s] == '#'
    ensures var r := ReadAt(text, s);
      && (r.token == NewLine || r.token == Eof)
      && (forall j | s <= j < r.end - 1 :: text[j] != '\n')
      && (r.token == NewLine ==> text[r.end - 1] == '\n')
      && (r.token == Eof <==> r.end == |text| && text[|text| - 1] != '\n')
  {
  }

  /**
   * Text that starts with no special character is one word up to a space,
   * a line break or the end, classified as a section key, then a step
   * keyword, then a plain word.
   */
  lemma PlainTextIsClassifiedWord(text: string, s: nat)
    requires s < |text| && !IsSpace(text[s]) && !IsNewLineChar(text[s])
    requires text[s] !in {'#', '@', '|', ':', '<', '"'}
    ensures var r := ReadAt(text, s);
      && r.token == ClassifyWord(text[s..r.end])
      && (r.end == |text| || IsSpace(text[r.end]) || IsNewLineChar(text[r.end]))
      && forall j | s <= j < r.end :: !IsSpace(text[j]) && !IsNewLineChar(text[j])
  {
  }

  /** What the parse snapshot of the cursor holds. */
  datatype LexerSnapshot = LexerSnapshot(position: nat, current: Option<char>, counting: bool, skipped: nat)

  /** The current character is the one at the position. */
  ghost predicate InStep(text: string, s: LexerSnapshot) {
    s.position <= |text| && s.current == CurrentAt(text, s.position)
  }

  /** The restore `parse` performs as written: only the saved position comes back. */
  function RestoreAsWritten(saved: LexerSnapshot, finished: LexerSnapshot): (r: LexerSnapshot)
    ensures r.position == saved.position && r.current == finished.current
  {
    finished.(position := saved.position)
  }

  /**
   * After a parse of "a" the cursor is at the end with no current
   * character; restoring only the position leaves it at 0 with no current
   * character, where `getNextToken` returns EOF at once, so a second parse
   * yields only EOF. Restoring the whole snapshot keeps the cursor in step.
   */
  lemma RestoreAsWrittenLosesText()
    ensures var saved := LexerSnapshot(0, Some('a'), false, 0);
      var finished := LexerSnapshot(1, None, true, 0);
      && InStep("a", saved) && InStep("a", finished)
      && RestoreAsWritten(saved, finished).current.None?
      && !InStep("a", RestoreAsWritten(saved, finished))
  {
  }

  // ---------------------------------------------------------------------
  // The token list
  // ---------------------------------------------------------------------

  /**
   * The tokens `getNextToken` returns one after another from position `p`,
   * with the counting flag and the count of spaces pending as given, up to
   * and including the first EOF. Spaces are passed over and, while
   * counting, added to the pending count; a pending count comes out as one
   * whitespace token before the next token; a line break stops the
   * counting and any other token starts it.
   */
  ghost function Lex(text: string, p: nat, counting: bool, skipped: nat): (ts: seq<Token>)
    requires p <= |text|
    decreases 2 * (|text| - p) + (if skipped > 0 then 1 else 0)
  {
    var s := SpacesEnd(text, p);
    var pending := skipped + (if counting then s - p else 0);
    if s == |text| then [Eof]
    else if pending > 0 then [Whitespaces(pending)] + Lex(text, s, true, 0)
    else
      var r := ReadAt(text, s);
      if r.token == Eof then [Eof]
      else [r.token] + Lex(text, r.end, !IsNewLineChar(text[s]), 0)
  }

  /**
   * What one call of `getNextToken` does from position `p` with the
   * counters as given: it passes the spaces up to `start`; at the end of
   * the text it returns EOF; with spaces pending it returns them as one
   * whitespace token and starts counting; otherwise it returns the token
   * read at `start`, ending at `end`, and counts again unless that token
   * was a line break.
   */
  ghost predicate TokenStep(text: string, p: nat, counting: bool, skipped: nat,
                            start: nat, token: Token, end: nat, counting': bool, skipped': nat)
  {
    && p <= start <= |text| && start <= end <= |text|
    && (forall j | p <= j < start :: text[j] == ' ')
    && (start < |text| ==> text[start] != ' ')
    && var pending := skipped + (if counting then start - p else 0);
      if start == |text| then token == Eof && end == |text| && skipped' == pending && counting' == counting
      else if pending > 0 then token == Whitespaces(pending) && end == start && skipped' == 0 && counting'
      else
        && token == ReadAt(text, start).token && end == ReadAt(text, start).end
        && skipped' == 0 && counting' == !IsNewLineChar(text[start])
  }

  /**
   * One call of `getNextToken`, as its contract describes it, is the head of
   * the token list, and the rest of the list starts where it leaves the
   * cursor and the counters.
   */
  lemma LexStep(text: string, p: nat, counting: bool, skipped: nat,
                start: nat, token: Token, end: nat, counting': bool, skipped': nat)
    requires TokenStep(text, p, counting, skipped, start, token, end, counting', skipped')
    ensures Lex(text, p, counting, skipped) == [token] + (if token == Eof then [] else Lex(text, end, counting', skipped'))
  {
    assert SpacesEnd(text, p) == start by {
      SpacesEndIsFirst(text, p, start);
    }
  }

  /** The first non-space from `p` is the only candidate `start` with spaces before it and none at it. */
  lemma {:induction false} SpacesEndIsFirst(text: string, p: nat, start: nat)
    requires p <= start <= |text|
    requires forall j | p <= j < start :: text[j] == ' '
    requires start < |text| ==> text[start] != ' '
    ensures SpacesEnd(text, p) == start
    decreases start - p
  {
    if p < start {
      SpacesEndIsFirst(text, p + 1, start);
    }
  }

  lemma AppendNext(tokens: seq<Token>, next: Token, todo: seq<Token>, rest: seq<Token>, whole: seq<Token>)
    requires tokens + todo == whole && todo == [next] + rest
    ensures (tokens + [next]) + rest == whole
  {
  }

  lemma AppendLast(tokens: seq<Token>, next: Token, todo: seq<Token>, whole: seq<Token>)
    requires tokens + todo == whole && todo == [next]
    ensures tokens + [next] == whole
  {
  }

  /**
   * The list ends with its one EOF, and every whitespace token counts at
   * least one space.
   */
  predicate WellShaped(ts: seq<Token>) {
    && |ts| >= 1 && ts[|ts| - 1] == Eof
    && (forall i | 0 <= i < |ts| - 1 :: ts[i] != Eof)
    && (forall i | 0 <= i < |ts| :: ts[i].Whitespaces? ==> ts[i].count > 0)
  }

  lemma ConsWellShaped(head: Token, rest: seq<Token>)
    requires head != Eof && (head.Whitespaces? ==> head.count > 0) && WellShaped(rest)
    ensures WellShaped([head] + rest)
  {
    var ts := [head] + rest;
    assert forall i | 1 <= i < |ts| :: ts[i] == rest[i - 1];
  }

  /** Whatever the counters, the token list ends with its one EOF and has no empty whitespace token. */
  lemma {:induction false} LexWellShaped(text: string, p: nat, counting: bool, skipped: nat)
    requires p <= |text|
    ensures WellShaped(Lex(text, p, counting, skipped))
    decreases 2 * (|text| - p) + (if skipped > 0 then 1 else 0)
  {
    var s := SpacesEnd(text, p);
    var pending := skipped + (if counting then s - p else 0);
    if s == |text| {
    } else if pending > 0 {
      LexWellShaped(text, s, true, 0);
      ConsWellShaped(Whitespaces(pending), Lex(text, s, true, 0));
    } else {
      var r := ReadAt(text, s);
      if r.token != Eof {
        LexWellShaped(text, r.end, !IsNewLineChar(text[s]), 0);
        assert !r.token.Whitespaces? by {
          ReadNeverWhitespace(text, s);
        }
        ConsWellShaped(r.token, Lex(text, r.end, !IsNewLineChar(text[s]), 0));
      }
    }
  }

  /** Only the counting in `getNextToken` makes whitespace tokens; the token read at a character never is one. */
  lemma ReadNeverWhitespace(text: string, s: nat)
    requires s < |text| && !IsSpace(text[s])
    ensures !ReadAt(text, s).token.Whitespaces?
  {
  }

  /**
   * Without the reset of the counters: after a parse of "a " the lexer is
   * left counting with one space pending, and lexing the text again from
   * the start then opens with a whitespace token that a fresh lexer does
   * not produce.
   */
  lemma StaleCountersAddWhitespace()
    ensures Lex("a ", 0, false, 0) == [ClassifyWord("a"), Eof]
    ensures Lex("a ", 0, true, 1) == [Whitespaces(1), ClassifyWord("a"), Eof]
  {
    var text := "a ";
    assert SpacesEnd(text, 2) == 2;
    assert SpacesEnd(text, 1) == 2;
    assert SpacesEnd(text, 0) == 0;
    assert WordEnd(text, 1) == 1;
    assert WordEnd(text, 0) == 1;
    assert text[0..1] == "a";
    assert ReadAt(text, 0) == Read(ClassifyWord("a"), 1);
    assert Lex(text, 1, true, 0) == [Eof];
    assert Lex(text, 0, true, 0) == [ClassifyWord("a"), Eof];
  }

  class Lexer {
    const text: string
    var position: nat
    var currentChar: Option<char>
    var shouldCountWhitespaces: bool
    var skippedWhitespaces: nat

    /** The current character is the one at the position. */
    ghost predicate Valid()
      reads this
    {
      position <= |text| && currentChar == CurrentAt(text, position)
    }

    /**
     * A measure that every token but EOF decreases: the cursor moves on, or
     * a pending run of spaces is emitted.
     */
    ghost function Remaining(): nat
      reads this
    {
      2 * (if position <= |text| then |text| - position else 0) + (if skippedWhitespaces > 0 then 1 else 0)
    }

    /** `init(feature:)`: reading the first character traps on an empty text. */
    constructor (feature: string)
      requires |feature| > 0
      ensures Valid() && text == feature && position == 0
      ensures !shouldCountWhitespaces && skippedWhitespaces == 0
    {
      text := feature;
      position := 0;
      currentChar := Some(feature[0]);
      shouldCountWhitespaces := false;
      skippedWhitespaces := 0;
    }

    /** `advance()`: one character on; moving past the end traps. */
    method Advance()
      requires Valid() && position < |text|
      modifies this
      ensures Valid() && position == old(position) + 1
      ensures shouldCountWhitespaces == old(shouldCountWhitespaces)
      ensures skippedWhitespaces == old(skippedWhitespaces)
    {
      position := position + 1;
      if position == |text| {
        currentChar := None;
      } else {
        currentChar := Some(text[position]);
      }
    }

    /**
     * `advance(until:orEOF:)`: moves to the next `c` at or after the cursor;
     * reaching the end instead throws unless `orEOF` (reported as `threw`).
     */
    method AdvanceUntil(c: char, orEOF: bool) returns (threw: bool)
      requires Valid()
      modifies this
      ensures Valid() && position == IndexOfFrom(text, old(position), c)
      ensures threw <==> position == |text| && !orEOF
      ensures shouldCountWhitespaces == old(shouldCountWhitespaces)
      ensures skippedWhitespaces == old(skippedWhitespaces)
    {
      while currentChar.Some? && currentChar.value != c
        invariant Valid() && old(position) <= position <= IndexOfFrom(text, old(position), c)
        invariant shouldCountWhitespaces == old(shouldCountWhitespaces)
        invariant skippedWhitespaces == old(skippedWhitespaces)
        decreases |text| - position
      {
        Advance();
      }
      threw := position == |text| && currentChar != Some(c) && !orEOF;
    }

    /** `skipWhitespaces`: passes over spaces and returns how many it passed. */
    method SkipWhitespaces() returns (skipped: nat)
      requires Valid()
      modifies this
      ensures Valid() && position == old(position) + skipped == SpacesEnd(text, old(position))
      ensures forall j | old(position) <= j < position :: text[j] == ' '
      ensures position == |text| || text[position] != ' '
      ensures shouldCountWhitespaces == old(shouldCountWhitespaces)
      ensures skippedWhitespaces == old(skippedWhitespaces)
    {
      skipped := 0;
      while currentChar.Some? && IsSpace(currentChar.value)
        invariant Valid() && position == old(position) + skipped <= SpacesEnd(text, old(position))
        invariant shouldCountWhitespaces == old(shouldCountWhitespaces)
        invariant skippedWhitespaces == old(skippedWhitespaces)
        decreases |text| - position
      {
        Advance();
        skipped := skipped + 1;
      }
    }

    /** `word()`: the characters up to a space, a line break or the end. */
    method Word() returns (w: string)
      requires Valid()
      modifies this
      ensures Valid() && position == WordEnd(text, old(position))
      ensures w == text[old(position)..position]
      ensures forall j | 0 <= j < |w| :: !IsSpace(w[j]) && !IsNewLineChar(w[j])
      ensures position == |text| || IsSpace(text[position]) || IsNewLineChar(text[position])
      ensures shouldCountWhitespaces == old(shouldCountWhitespaces)
      ensures skippedWhitespaces == old(skippedWhitespaces)
    {
      w := "";
      while currentChar.Some? && !IsSpace(currentChar.value) && !IsNewLineChar(currentChar.value)
        invariant Valid() && old(position) <= position <= WordEnd(text, old(position))
        invariant w == text[old(position)..position]
        invariant shouldCountWhitespaces == old(shouldCountWhitespaces)
        invariant skippedWhitespaces == old(skippedWhitespaces)
        decreases |text| - position
      {
        w := w + [currentChar.value];
        Advance();
      }
    }

    /** `peek(until:)` with the error thrown as intended; the cursor does not move. */
    method PeekUntil(c: char) returns (r: Peeked)
      requires Valid() && position < |text|
      ensures r == PeekResult(text, position, c)
    {
      var next := position + 1;
      if next == |text| {
        return NothingPeeked;
      }
      var nextWord := "";
      while next != |text| && text[next] != c && !IsNewLineChar(text[next])
        invariant position + 1 <= next <= PeekEnd(text, position + 1, c)
        invariant nextWord == text[position + 1..next]
        decreases |text| - next
      {
        nextWord := nextWord + [text[next]];
        next := next + 1;
      }
      if next == |text| {
        return PeekThrew;
      }
      if nextWord == [] {
        r := NothingPeeked;
      } else {
        r := PeekedWord(nextWord);
      }
    }

    /**
     * The `do`/`catch` block of `getNextToken` at `<` or `"`: a parameter
     * token when one is read; otherwise nothing, with the cursor where the
     * caught error left it.
     */
    method TryParameter(c: char) returns (found: Option<Token>)
      requires Valid() && position < |text| && currentChar == Some(c) && (c == '<' || c == '"')
      modifies this
      ensures Valid()
      ensures var a := ParameterAttempt(text, old(position)); found == a.found && position == a.after
      ensures shouldCountWhitespaces == old(shouldCountWhitespaces)
      ensures skippedWhitespaces == old(skippedWhitespaces)
    {
      if c == '<' {
        var peeked := PeekUntil('>');
        if peeked.PeekedWord? {
          var threw := AdvanceUntil('>', false);
          if threw {
            return None;
          }
          Advance();
          return Some(ExampleParameter(peeked.word));
        }
      } else {
        var peeked := PeekUntil('"');
        if peeked.PeekedWord? {
          Advance();
          var threw := AdvanceUntil('"', false);
          if threw {
            return None;
          }
          Advance();
          return Some(Parameter(peeked.word));
        }
      }
      found := None;
    }

    /** The token-reading branches of `getNextToken`, at a character that is not a space. */
    method ReadToken(c: char) returns (token: Token)
      requires Valid() && position < |text| && currentChar == Some(c) && !IsSpace(c)
      modifies this
      ensures Valid()
      ensures token == ReadAt(text, old(position)).token && position == ReadAt(text, old(position)).end
      ensures shouldCountWhitespaces == (old(shouldCountWhitespaces) && !IsNewLineChar(c))
      ensures skippedWhitespaces == old(skippedWhitespaces)
    {
      if c == '#' {
        var _ := AdvanceUntil('\n', true);
        if position != |text| {
          Advance();
          return NewLine;
        } else {
          return Eof;
        }
      }
      if IsNewLineChar(c) {
        shouldCountWhitespaces := false;
        Advance();
        return NewLine;
      }
      // A character is always left here, so the source's check for one
      // after `@` always holds.
      if c == '@' {
        Advance();
        var tag := Word();
        return Tag(tag);
      }
      if c == '|' {
        Advance();
        return Pipe;
      }
      if c == ':' {
        Advance();
        return Colon;
      }
      if c == '<' || c == '"' {
        var found := TryParameter(c);
        if found.Some? {
          return found.value;
        }
      }
      var result := Word();
      token := ClassifyWord(result);
    }

    /**
     * `getNextToken`: passes over spaces, counting them once the line has
     * had its first token; a pending count is emitted as `whitespaces`
     * before the next token; a line break stops the counting. Never throws:
     * every error inside is caught.
     */
    method GetNextToken() returns (token: Token, ghost start: nat)
      requires Valid()
      modifies this
      ensures Valid()
      ensures TokenStep(text, old(position), old(shouldCountWhitespaces), old(skippedWhitespaces),
        start, token, position, shouldCountWhitespaces, skippedWhitespaces)
      ensures token.Whitespaces? ==> token.count > 0
      ensures token != Eof ==> Remaining() < old(Remaining())
    {
      start := position;
      while currentChar.Some?
        invariant Valid() && old(position) <= position && start == position
        invariant forall j | old(position) <= j < position :: text[j] == ' '
        invariant skippedWhitespaces
          == old(skippedWhitespaces) + (if old(shouldCountWhitespaces) then position - old(position) else 0)
        invariant shouldCountWhitespaces == old(shouldCountWhitespaces)
        decreases |text| - position
      {
        var c := currentChar.value;
        if IsSpace(c) {
          var skipped := SkipWhitespaces();
          if shouldCountWhitespaces {
            skippedWhitespaces := skippedWhitespaces + skipped;
          }
          start := position;
          continue;
        }
        shouldCountWhitespaces := true;
        if skippedWhitespaces > 0 {
          var skipped := skippedWhitespaces;
          skippedWhitespaces := 0;
          token := Whitespaces(skipped);
          return;
        }
        token := ReadToken(c);
        return;
      }
      token := Eof;
    }

    /**
     * The loop of `parse`: calls `getNextToken` up to and including the
     * first EOF, collecting the tokens.
     */
    method TokensUntilEof() returns (tokens: seq<Token>)
      requires Valid()
      modifies this
      ensures Valid()
      ensures tokens == Lex(text, old(position), old(shouldCountWhitespaces), old(skippedWhitespaces))
    {
      ghost var whole := Lex(text, position, shouldCountWhitespaces, skippedWhitespaces);
      tokens := [];
      while true
        invariant Valid()
        invariant tokens + Lex(text, position, shouldCountWhitespaces, skippedWhitespaces) == whole
        decreases Remaining()
      {
        ghost var before, counting, skipped := position, shouldCountWhitespaces, skippedWhitespaces;
        ghost var done := Lex(text, before, counting, skipped);
        var next, start := GetNextToken();
        LexStep(text, before, counting, skipped, start, next, position, shouldCountWhitespaces, skippedWhitespaces);
        if next == Eof {
          AppendLast(tokens, next, done, whole);
          tokens := tokens + [next];
          break;
        }
        AppendNext(tokens, next, done, Lex(text, position, shouldCountWhitespaces, skippedWhitespaces), whole);
        tokens := tokens + [next];
      }
    }

    /**
     * `parse`, with the cursor and the whitespace counters reset and
     * restored as a whole: lexes the text from the start up to and
     * including the first EOF, as a fresh lexer would.
     */
    method Parse() returns (tokens: seq<Token>)
      requires Valid()
      modifies this
      ensures Valid()
      ensures position == old(position) && currentChar == old(currentChar)
      ensures shouldCountWhitespaces == old(shouldCountWhitespaces)
      ensures skippedWhitespaces == old(skippedWhitespaces)
      ensures tokens == Lex(text, 0, false, 0)
      ensures WellShaped(tokens)
    {
      var lastPosition, lastChar := position, currentChar;
      var lastCounting, lastSkipped := shouldCountWhitespaces, skippedWhitespaces;
      position, currentChar := 0, CurrentAt(text, 0);
      shouldCountWhitespaces, skippedWhitespaces := false, 0;
      tokens := TokensUntilEof();
      LexWellShaped(text, 0, false, 0);
      position, currentChar := lastPosition, lastChar;
      shouldCountWhitespaces, skippedWhitespaces := lastCounting, lastSkipped;
    }
  }
}
