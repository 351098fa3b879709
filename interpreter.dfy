/**
 * `CucumberInterpreter`: recursive descent over the older lexer's tokens.
 * The interpreter holds one token at a time and reads the next with `eat`;
 * the lexer is represented by the list of tokens it hands out, one per
 * read, and by EOF once that list is exhausted.
 */
module Interpreting {
  import opened Common
  import opened LegacyTokens
  import Ast
  import LegacyModels

  /** `InterpreterException`. */
  datatype InterpreterException =
    | UnexpectedTerm(term: string, expected: string)
    | TitleExpectedNothingFound
    | ScenarioOutlineWithoutExamples
    | UnexpectedTitleDescriptionFactor
    | ExampleTableWithoutTitle

  /** Everything a step of the interpreter can throw: its own exceptions and those of the constructors it calls. */
  datatype InterpretError =
    | Interpreter(exception: InterpreterException)
    | InvalidScenario(scenarioError: Ast.ScenarioError)
    | InvalidExamples(examplesError: LegacyModels.ExamplesError)
    | InvalidDataTable(dataTableError: LegacyModels.DataTableError)

  /**
   * The older scenario the interpreter builds. Its steps are the older
   * `Step` of `Models/Step.swift`; the syntax-tree `Step` stands in for it,
   * which is harmless because `steps()` never returns a step, so that
   * component is never inhabited.
   */
  type LegacyScenario = Ast.Scenario<Ast.Tag, Ast.Step, LegacyModels.ExamplesTable>

  /** What `scenario` says it expected when the held token is not a scenario key. */
  const ScenarioKeysExpected: string := "Scenario:, Example:, Scenario Outline:, Scenario Template:"

  // ---------------------------------------------------------------------
  // The token stream
  // ---------------------------------------------------------------------

  /** The token held after `c` reads: EOF before the first read and after the last token. */
  function At(tokens: seq<Token>, c: nat): Token {
    if 1 <= c <= |tokens| then tokens[c - 1] else Eof
  }

  predicate EndsLine(t: Token) {
    t == NewLine || t == Eof
  }

  /** The first read, from `c` on, after which the held token ends a line. */
  function LineEnd(tokens: seq<Token>, c: nat): (e: nat)
    ensures c <= e && EndsLine(At(tokens, e))
    decreases |tokens| + 1 - c
  {
    if EndsLine(At(tokens, c)) then c else LineEnd(tokens, c + 1)
  }

  /** No read between `c` and its line end ends the line: `LineEnd` is the first such read. */
  lemma {:induction false} LineEndIsFirst(tokens: seq<Token>, c: nat, i: nat)
    requires c <= i < LineEnd(tokens, c)
    ensures !EndsLine(At(tokens, i))
    decreases i - c
  {
    if c < i {
      LineEndIsFirst(tokens, c + 1, i);
    }
  }

  /** The representations of the tokens held from read `from` up to, not including, read `stop`, in order. */
  function Text(tokens: seq<Token>, from: nat, stop: nat): string
    decreases stop
  {
    if stop <= from then "" else Text(tokens, from, stop - 1) + Representation(At(tokens, stop - 1))
  }

  /** The text of a range is the text of its two halves, one after the other. */
  lemma {:induction false} TextSplit(tokens: seq<Token>, a: nat, b: nat, c: nat)
    requires a <= b <= c
    ensures Text(tokens, a, c) == Text(tokens, a, b) + Text(tokens, b, c)
    decreases c - b
  {
    if b < c {
      TextSplit(tokens, a, b, c - 1);
      var x := Text(tokens, a, b);
      var y := Text(tokens, b, c - 1);
      var z := Representation(At(tokens, c - 1));
      assert Text(tokens, a, c) == (x + y) + z;
      assert Text(tokens, b, c) == y + z;
      assert (x + y) + z == x + (y + z);
    }
  }

  /** What `sentence` returns from read `c`: the text up to the end of the line, or none when that is empty. */
  function SentenceOf(tokens: seq<Token>, c: nat): (r: Option<string>)
    ensures r.None? <==> Text(tokens, c, LineEnd(tokens, c)) == ""
    ensures r.Some? ==> r.value == Text(tokens, c, LineEnd(tokens, c)) && r.value != ""
  {
    var t := Text(tokens, c, LineEnd(tokens, c));
    if t == "" then None else Some(t)
  }

  /** A sentence that starts at a scenario key is never missing: it begins with the key's own text. */
  lemma KeyStartsSentence(tokens: seq<Token>, c: nat)
    requires At(tokens, c).ScenarioKeyToken?
    ensures SentenceOf(tokens, c).Some?
    ensures StartsWith(SentenceOf(tokens, c).value, Representation(At(tokens, c)))
  {
    var e := LineEnd(tokens, c);
    TextSplit(tokens, c, c + 1, e);
    var key := Representation(At(tokens, c));
    assert Text(tokens, c, c + 1) == key;
    assert |key| > 0;
    var t := Text(tokens, c, e);
    assert t == key + Text(tokens, c + 1, e);
    assert t[..|key|] == key;
  }

  /** The number of reads up to `c` that returned a newline. */
  function NewLines(tokens: seq<Token>, c: nat): nat {
    if c == 0 then 0 else NewLines(tokens, c - 1) + (if At(tokens, c) == NewLine then 1 else 0)
  }

  /** The first read, from `c` on, after which the held token is not a tag. */
  function TagsEnd(tokens: seq<Token>, c: nat): (e: nat)
    ensures c <= e && !At(tokens, e).Tag?
    decreases |tokens| + 1 - c
  {
    if !At(tokens, c).Tag? then c else TagsEnd(tokens, c + 1)
  }

  /** Every read between `c` and `TagsEnd` holds a tag. */
  lemma {:induction false} TagsEndIsFirst(tokens: seq<Token>, c: nat, i: nat)
    requires c <= i < TagsEnd(tokens, c)
    ensures At(tokens, i).Tag?
    decreases i - c
  {
    if c < i {
      TagsEndIsFirst(tokens, c + 1, i);
    }
  }

  /** The tags held from read `from` up to, not including, read `stop`, in order; other tokens add nothing. */
  function TagList(tokens: seq<Token>, from: nat, stop: nat): seq<Ast.Tag>
    decreases stop
  {
    if stop <= from then []
    else
      var prev := TagList(tokens, from, stop - 1);
      match At(tokens, stop - 1)
      case Tag(v) => prev + [Ast.Tag(v)]
      case _ => prev
  }

  /** Up to the end of the tags, one tag is read per token, each with that token's name, in order. */
  lemma {:induction false} TagsAreRead(tokens: seq<Token>, c: nat, stop: nat)
    requires c <= stop <= TagsEnd(tokens, c)
    ensures |TagList(tokens, c, stop)| == stop - c
    ensures forall k | 0 <= k < stop - c :: At(tokens, c + k) == Tag(TagList(tokens, c, stop)[k].tag)
    decreases stop
  {
    if c < stop {
      TagsAreRead(tokens, c, stop - 1);
      TagsEndIsFirst(tokens, c, stop - 1);
      var prev := TagList(tokens, c, stop - 1);
      var now := TagList(tokens, c, stop);
      assert now == prev + [Ast.Tag(At(tokens, stop - 1).value)];
      forall k | 0 <= k < stop - c ensures At(tokens, c + k) == Tag(now[k].tag) {
        if k < stop - 1 - c {
          assert now[k] == prev[k];
        }
      }
    }
  }

  // ---------------------------------------------------------------------
  // Cells between pipes, table rows
  // ---------------------------------------------------------------------

  /** The cells closed so far and the text read since the last pipe. */
  datatype CellScan = CellScan(words: seq<string>, partial: string)

  /**
   * The cells read from `from` up to `stop`: every pipe closes the text
   * gathered since the one before, trimmed of whitespace.
   */
  function Cells(tokens: seq<Token>, from: nat, stop: nat): CellScan
    decreases stop
  {
    if stop <= from then CellScan([], "")
    else
      var prev := Cells(tokens, from, stop - 1);
      var t := At(tokens, stop - 1);
      if t == Pipe then CellScan(prev.words + [Trim(prev.partial)], "")
      else CellScan(prev.words, prev.partial + Representation(t))
  }

  /** The number of pipes held from read `from` up to `stop`. */
  function Pipes(tokens: seq<Token>, from: nat, stop: nat): nat
    decreases stop
  {
    if stop <= from then 0 else Pipes(tokens, from, stop - 1) + (if At(tokens, stop - 1) == Pipe then 1 else 0)
  }

  /** Each pipe closes exactly one cell. */
  lemma {:induction false} OneCellPerPipe(tokens: seq<Token>, from: nat, stop: nat)
    ensures |Cells(tokens, from, stop).words| == Pipes(tokens, from, stop)
    decreases stop
  {
    if from < stop {
      OneCellPerPipe(tokens, from, stop - 1);
    }
  }

  /** A cell neither starts nor ends with whitespace. */
  predicate Trimmed(s: string) {
    s == "" || (!IsWhitespace(s[0]) && !IsWhitespace(s[|s| - 1]))
  }

  /** Appending a trimmed cell to trimmed cells keeps every cell trimmed. */
  lemma TrimmedAppend(words: seq<string>, cell: string)
    requires forall k | 0 <= k < |words| :: Trimmed(words[k])
    requires Trimmed(cell)
    ensures forall k | 0 <= k < |words + [cell]| :: Trimmed((words + [cell])[k])
  {
    forall k | 0 <= k < |words + [cell]| ensures Trimmed((words + [cell])[k]) {
      if k < |words| {
        assert (words + [cell])[k] == words[k];
      } else {
        assert (words + [cell])[k] == cell;
      }
    }
  }

  /** Every cell is trimmed. */
  lemma {:induction false} CellsAreTrimmed(tokens: seq<Token>, from: nat, stop: nat)
    ensures forall k | 0 <= k < |Cells(tokens, from, stop).words| :: Trimmed(Cells(tokens, from, stop).words[k])
    decreases stop
  {
    if from < stop {
      CellsAreTrimmed(tokens, from, stop - 1);
      var prev := Cells(tokens, from, stop - 1);
      if At(tokens, stop - 1) == Pipe {
        var cell := Trim(prev.partial);
        assert Trimmed(cell);
        TrimmedAppend(prev.words, cell);
        assert Cells(tokens, from, stop).words == prev.words + [cell];
      } else {
        assert Cells(tokens, from, stop).words == prev.words;
      }
    }
  }

  /**
   * The rows of a table that starts at read `c`, after the rows `acc`
   * already read, and the read it stops at: while a pipe is held, one row
   * of the cells up to the end of its line, after which the newline is
   * passed unless it is EOF.
   */
  function TableRows(tokens: seq<Token>, c: nat, acc: seq<seq<string>>): (r: (seq<seq<string>>, nat))
    ensures c <= r.1 && At(tokens, r.1) != Pipe
    decreases |tokens| + 1 - c
  {
    if At(tokens, c) != Pipe then (acc, c)
    else TableRows(tokens, NextRow(tokens, c), acc + [Cells(tokens, c + 1, LineEnd(tokens, c + 1)).words])
  }

  /** The rows already read stay in front of the ones read after them. */
  lemma {:induction false} RowsKeepEarlierRows(tokens: seq<Token>, c: nat, acc: seq<seq<string>>)
    ensures |acc| <= |TableRows(tokens, c, acc).0| && TableRows(tokens, c, acc).0[..|acc|] == acc
    decreases |tokens| + 1 - c
  {
    if At(tokens, c) == Pipe {
      var more := acc + [Cells(tokens, c + 1, LineEnd(tokens, c + 1)).words];
      RowsKeepEarlierRows(tokens, NextRow(tokens, c), more);
      var r := TableRows(tokens, NextRow(tokens, c), more).0;
      assert r[..|acc|] == r[..|more|][..|acc|];
    }
  }

  /** Where the row after the one starting at read `c` starts: past the newline that ends it, or at EOF. */
  function NextRow(tokens: seq<Token>, c: nat): (next: nat)
    ensures c < next
  {
    var e := LineEnd(tokens, c + 1);
    if At(tokens, e) == Eof then e else e + 1
  }

  /** Each row of a table has as many cells as its line has pipes after the first. */
  lemma RowsCountPipes(tokens: seq<Token>, c: nat)
    ensures var rows := TableRows(tokens, c, []).0;
      At(tokens, c) == Pipe ==> |rows| >= 1 && |rows[0]| == Pipes(tokens, c + 1, LineEnd(tokens, c + 1))
  {
    if At(tokens, c) == Pipe {
      var e := LineEnd(tokens, c + 1);
      var row := Cells(tokens, c + 1, e).words;
      var acc: seq<seq<string>> := [];
      assert acc + [row] == [row];
      var rows := TableRows(tokens, NextRow(tokens, c), [row]).0;
      assert TableRows(tokens, c, []).0 == rows;
      RowsKeepEarlierRows(tokens, NextRow(tokens, c), [row]);
      assert rows[0] == row;
      OneCellPerPipe(tokens, c + 1, e);
    }
  }

  // ---------------------------------------------------------------------
  // What each step of the descent does, as functions of the reads made
  // ---------------------------------------------------------------------

  /** The kind of keyword `titleDescription` is asked about. */
  datatype Factor = ScenarioFactor | StepFactor | OtherFactor

  /** A title stands alone when the next line starts with a keyword of the factor's own kind. */
  predicate StandsAlone(factor: Factor, t: Token) {
    (factor == ScenarioFactor && t.ScenarioKeyToken?) || (factor == StepFactor && t.StepKeywordToken?)
  }

  datatype Heading = Heading(title: string, description: Option<string>)

  /** `isExamplesToken`: the `Examples:` key. */
  predicate IsExamplesKey(t: Token) {
    t == ScenarioKeyToken(Examples)
  }

  /** What `wordsBetweenPipes` throws when the held token is not a pipe. */
  function PipeExpected(t: Token): InterpretError {
    Interpreter(UnexpectedTerm(Representation(t), DescriptionValue(Pipe)))
  }

  function LiftScenario(r: Result<LegacyScenario, Ast.ScenarioError>): (l: Result<LegacyScenario, InterpretError>)
    ensures r.Success? ==> l == Success(r.value)
    ensures r.Failure? ==> l == Failure(InvalidScenario(r.error))
  {
    match r
    case Success(s) => Success(s)
    case Failure(e) => Failure(InvalidScenario(e))
  }

  function LiftDataTable(r: Result<LegacyModels.DataTable, LegacyModels.DataTableError>): (l: Result<LegacyModels.DataTable, InterpretError>)
    ensures r.Success? ==> l == Success(r.value)
    ensures r.Failure? ==> l == Failure(InvalidDataTable(r.error))
  {
    match r
    case Success(t) => Success(t)
    case Failure(e) => Failure(InvalidDataTable(e))
  }

  function LiftExamples(r: Result<LegacyModels.ExamplesTable, LegacyModels.ExamplesError>): (l: Result<Option<LegacyModels.ExamplesTable>, InterpretError>)
    ensures r.Success? ==> l == Success(Some(r.value))
    ensures r.Failure? ==> l == Failure(InvalidExamples(r.error))
  {
    match r
    case Success(t) => Success(Some(t))
    case Failure(e) => Failure(InvalidExamples(e))
  }

  /**
   * `titleDescription(factor:)` from read `c`: its result and the read it
   * stops at. The title sentence must be there; then, past the newline, no
   * description when the next line starts with a keyword of the factor's
   * kind, a refusal for a factor that is neither a scenario key nor a step
   * keyword, and otherwise the next sentence as the description.
   */
  function TitleDescriptionOf(tokens: seq<Token>, c: nat, factor: Factor): (r: (Result<Heading, InterpretError>, nat))
    ensures SentenceOf(tokens, c).None? ==> r.0 == Failure(Interpreter(TitleExpectedNothingFound))
    ensures factor != OtherFactor ==> (r.0.Success? <==> SentenceOf(tokens, c).Some?)
    ensures r.0.Success? ==> r.0.value.title != "" && r.0.value.description != Some("")
    ensures c <= r.1
  {
    var e := LineEnd(tokens, c);
    match SentenceOf(tokens, c)
    case None => (Failure(Interpreter(TitleExpectedNothingFound)), e)
    case Some(title) =>
      if StandsAlone(factor, At(tokens, e + 1)) then (Success(Heading(title, None)), e + 1)
      else if factor == OtherFactor then (Failure(Interpreter(UnexpectedTitleDescriptionFactor)), e + 1)
      else (Success(Heading(title, SentenceOf(tokens, e + 1))), LineEnd(tokens, e + 1))
  }

  /**
   * `wordsBetweenPipes` from read `c`: refused unless a pipe is held;
   * otherwise, past that pipe, the cells up to the end of the line, which
   * is left held.
   */
  function WordsOf(tokens: seq<Token>, c: nat): (Result<seq<string>, InterpretError>, nat) {
    if At(tokens, c) != Pipe then (Failure(PipeExpected(At(tokens, c))), c)
    else
      var e := LineEnd(tokens, c + 1);
      (Success(Cells(tokens, c + 1, e).words), e)
  }

  /** Past a pipe, `wordsBetweenPipes` returns one trimmed cell for each later pipe on the line. */
  lemma WordsBetweenPipesCells(tokens: seq<Token>, c: nat)
    requires At(tokens, c) == Pipe
    ensures var (r, e) := WordsOf(tokens, c);
      && r.Success?
      && |r.value| == Pipes(tokens, c + 1, e)
      && (forall k | 0 <= k < |r.value| :: Trimmed(r.value[k]))
      && EndsLine(At(tokens, e))
  {
    var e := LineEnd(tokens, c + 1);
    OneCellPerPipe(tokens, c + 1, e);
    CellsAreTrimmed(tokens, c + 1, e);
  }

  /** `dataTable` from read `c`: the rows of the table there, then the older data table built from them. */
  function DataTableOf(tokens: seq<Token>, c: nat): (Result<LegacyModels.DataTable, InterpretError>, nat) {
    var (rows, stop) := TableRows(tokens, c, []);
    (LiftDataTable(LegacyModels.NewDataTable(rows)), stop)
  }

  /**
   * `examples` from read `c`: nothing unless the `Examples:` key is held;
   * then the title sentence, which must be there, the column titles read by
   * `wordsBetweenPipes` at the end of that line, the data table, and the
   * older examples table built from them.
   */
  function ExamplesOf(tokens: seq<Token>, c: nat): (Result<Option<LegacyModels.ExamplesTable>, InterpretError>, nat) {
    if !IsExamplesKey(At(tokens, c)) then (Success(None), c)
    else
      var e := LineEnd(tokens, c);
      match SentenceOf(tokens, c)
      case None => (Failure(Interpreter(ExampleTableWithoutTitle)), e)
      case Some(title) =>
        var (columns, afterColumns) := WordsOf(tokens, e);
        match columns
        case Failure(err) => (Failure(err), afterColumns)
        case Success(titles) =>
          var (table, afterTable) := DataTableOf(tokens, afterColumns);
          match table
          case Failure(err) => (Failure(err), afterTable)
          case Success(t) => (LiftExamples(LegacyModels.NewExamplesTable(title, titles, t)), afterTable)
  }

  /**
   * `examples` never returns a table: the title sentence stops at the end
   * of its line and leaves the newline or EOF held, where the column titles
   * find no pipe; so after the `Examples:` key it always throws, naming
   * that token.
   */
  lemma ExamplesNeverReturnTable(tokens: seq<Token>, c: nat)
    ensures var (r, stop) := ExamplesOf(tokens, c);
      && (!IsExamplesKey(At(tokens, c)) ==> r == Success(None) && stop == c)
      && (IsExamplesKey(At(tokens, c)) ==>
            var e := LineEnd(tokens, c);
            r == Failure(PipeExpected(At(tokens, e))) && stop == e)
  {
    if IsExamplesKey(At(tokens, c)) {
      KeyStartsSentence(tokens, c);
    }
  }

  /**
   * `scenario` from read `c`: tags, then a scenario key, which must be
   * there, then the title and description and the steps (`steps` returns
   * none); an outline key also needs an examples table; then the older
   * scenario is built.
   */
  function ScenarioOf(tokens: seq<Token>, c: nat): (Result<LegacyScenario, InterpretError>, nat) {
    var k := TagsEnd(tokens, c);
    var tagList := TagList(tokens, c, k);
    if !At(tokens, k).ScenarioKeyToken? then
      (Failure(Interpreter(UnexpectedTerm(DescriptionValue(At(tokens, k)), ScenarioKeysExpected))), k)
    else
      var (heading, afterTitle) := TitleDescriptionOf(tokens, k, ScenarioFactor);
      match heading
      case Failure(err) => (Failure(err), afterTitle)
      case Success(h) =>
        var steps: seq<Ast.Step> := [];
        if !IsOutlineKey(At(tokens, k).key) then
          (LiftScenario(Ast.NewScenario(tagList, h.title, h.description, steps, Ast.NotOutline)), afterTitle)
        else
          var (examples, afterExamples) := ExamplesOf(tokens, afterTitle);
          match examples
          case Failure(err) => (Failure(err), afterExamples)
          case Success(None) => (Failure(Interpreter(ScenarioOutlineWithoutExamples)), afterExamples)
          case Success(Some(table)) =>
            (LiftScenario(Ast.NewScenario(tagList, h.title, h.description, steps, Ast.OutlineOf(table))), afterExamples)
  }

  /**
   * `scenario` never returns a scenario. Without a scenario key after the
   * tags it throws `unexpectedTerm`; a plain scenario's title is always
   * there, so it gets as far as the scenario constructor, which refuses the
   * empty step list with `noStepsFound`; an outline throws
   * `scenarioOutlineWithoutExamples` when the line after its title does not
   * start with `Examples:`, and otherwise the error of `examples`.
   */
  lemma ScenarioNeverReturns(tokens: seq<Token>, c: nat)
    ensures ScenarioOf(tokens, c).0.Failure?
    ensures var k := At(tokens, TagsEnd(tokens, c));
      !k.ScenarioKeyToken? ==>
        ScenarioOf(tokens, c).0.error == Interpreter(UnexpectedTerm(DescriptionValue(k), ScenarioKeysExpected))
    ensures var k := At(tokens, TagsEnd(tokens, c));
      k.ScenarioKeyToken? && !IsOutlineKey(k.key) ==> ScenarioOf(tokens, c).0.error == InvalidScenario(Ast.NoStepsFound)
    ensures var t := TagsEnd(tokens, c); var k := At(tokens, t);
      k.ScenarioKeyToken? && IsOutlineKey(k.key) && !IsExamplesKey(At(tokens, TitleDescriptionOf(tokens, t, ScenarioFactor).1)) ==>
        ScenarioOf(tokens, c).0.error == Interpreter(ScenarioOutlineWithoutExamples)
  {
    var t := TagsEnd(tokens, c);
    if At(tokens, t).ScenarioKeyToken? {
      KeyStartsSentence(tokens, t);
      var afterTitle := TitleDescriptionOf(tokens, t, ScenarioFactor).1;
      ExamplesNeverReturnTable(tokens, afterTitle);
    }
  }

  // ---------------------------------------------------------------------
  // The interpreter
  // ---------------------------------------------------------------------

  class CucumberInterpreter {
    /** The tokens the lexer hands out, one per read. */
    const tokens: seq<Token>
    /** How many reads the interpreter has made. */
    var consumed: nat
    var currentToken: Token
    var fileLine: int

    /** The held token is the one the last read returned, and `fileLine` counts the newlines read. */
    ghost predicate Valid()
      reads this
    {
      currentToken == At(tokens, consumed) && fileLine == NewLines(tokens, consumed)
    }

    /** A new interpreter holds EOF, has read nothing and is on line 0. */
    constructor (lexerTokens: seq<Token>)
      ensures tokens == lexerTokens && consumed == 0 && Valid()
      ensures currentToken == Eof && fileLine == 0
    {
      tokens := lexerTokens;
      consumed := 0;
      currentToken := Eof;
      fileLine := 0;
    }

    /** `eat`: reads the next token and holds it; the line count goes up exactly when it is a newline. */
    method Eat() returns (t: Token)
      requires Valid()
      modifies this
      ensures Valid() && consumed == old(consumed) + 1
      ensures t == currentToken && t == At(tokens, consumed)
      ensures fileLine == old(fileLine) + (if t == NewLine then 1 else 0)
    {
      consumed := consumed + 1;
      currentToken := At(tokens, consumed);
      if currentToken == NewLine {
        fileLine := fileLine + 1;
      }
      t := currentToken;
    }

    /**
     * `sentence`: the representations of the tokens up to the newline or
     * EOF that ends the line, which is left held; none when that is empty.
     */
    method Sentence() returns (s: Option<string>)
      requires Valid()
      modifies this
      ensures Valid()
      ensures consumed == LineEnd(tokens, old(consumed))
      ensures s == SentenceOf(tokens, old(consumed))
    {
      ghost var c0 := consumed;
      ghost var e := LineEnd(tokens, c0);
      var result := "";
      while currentToken != NewLine && currentToken != Eof
        invariant Valid() && c0 <= consumed && LineEnd(tokens, consumed) == e
        invariant result == Text(tokens, c0, consumed)
        decreases e - consumed
      {
        result := result + Representation(currentToken);
        var _ := Eat();
      }
      s := if result == "" then None else Some(result);
    }

    /** `tags`: the tags held one after the other, up to the first token that is not a tag. */
    method Tags() returns (tags: seq<Ast.Tag>)
      requires Valid()
      modifies this
      ensures Valid()
      ensures consumed == TagsEnd(tokens, old(consumed))
      ensures tags == TagList(tokens, old(consumed), consumed)
    {
      ghost var c0 := consumed;
      ghost var e := TagsEnd(tokens, c0);
      tags := [];
      while currentToken.Tag?
        invariant Valid() && c0 <= consumed && TagsEnd(tokens, consumed) == e
        invariant tags == TagList(tokens, c0, consumed)
        decreases e - consumed
      {
        tags := tags + [Ast.Tag(currentToken.value)];
        var _ := Eat();
      }
    }

    /** `titleDescription(factor:)`. */
    method TitleDescription(factor: Factor) returns (r: Result<Heading, InterpretError>)
      requires Valid()
      modifies this
      ensures Valid()
      ensures (r, consumed) == TitleDescriptionOf(tokens, old(consumed), factor)
    {
      ghost var c0 := consumed;
      var title := Sentence();
      ghost var e := consumed;
      if title.None? {
        r := Failure(Interpreter(TitleExpectedNothingFound));
      } else {
        var next := Eat();
        assert next == At(tokens, e + 1);
        if StandsAlone(factor, next) {
          r := Success(Heading(title.value, None));
        } else if factor == OtherFactor {
          r := Failure(Interpreter(UnexpectedTitleDescriptionFactor));
        } else {
          var description := Sentence();
          r := Success(Heading(title.value, description));
        }
      }
    }

    /** `steps`: not yet written in the source; it always returns no steps. */
    method Steps() returns (steps: seq<Ast.Step>)
      ensures steps == []
    {
      steps := [];
    }

    /**
     * The loop of `wordsBetweenPipes`: reads up to the newline or EOF that
     * ends the line, which is left held, closing a trimmed cell at every
     * pipe.
     */
    method CellsToLineEnd() returns (words: seq<string>)
      requires Valid()
      modifies this
      ensures Valid()
      ensures consumed == LineEnd(tokens, old(consumed))
      ensures words == Cells(tokens, old(consumed), consumed).words
    {
      ghost var c1 := consumed;
      ghost var e := LineEnd(tokens, c1);
      var partialResult := "";
      words := [];
      while currentToken != NewLine && currentToken != Eof
        invariant Valid() && c1 <= consumed && LineEnd(tokens, consumed) == e
        invariant CellScan(words, partialResult) == Cells(tokens, c1, consumed)
        decreases e - consumed
      {
        if currentToken == Pipe {
          words := words + [Trim(partialResult)];
          partialResult := "";
        } else {
          partialResult := partialResult + Representation(currentToken);
        }
        var _ := Eat();
      }
    }

    /** `wordsBetweenPipes`. */
    method WordsBetweenPipes() returns (r: Result<seq<string>, InterpretError>)
      requires Valid()
      modifies this
      ensures Valid()
      ensures (r, consumed) == WordsOf(tokens, old(consumed))
    {
      if currentToken != Pipe {
        r := Failure(PipeExpected(currentToken));
      } else {
        var _ := Eat();
        var words := CellsToLineEnd();
        r := Success(words);
      }
    }

    /**
     * `dataTable`: one row of cells for every line that starts with a
     * pipe, passing the newline after each unless it is EOF, then the older
     * data table built from those rows.
     */
    method DataTable() returns (r: Result<LegacyModels.DataTable, InterpretError>)
      requires Valid()
      modifies this
      ensures Valid()
      ensures (r, consumed) == DataTableOf(tokens, old(consumed))
    {
      ghost var c0 := consumed;
      var rows: seq<seq<string>> := [];
      while currentToken == Pipe
        invariant Valid()
        invariant TableRows(tokens, consumed, rows) == TableRows(tokens, c0, [])
        decreases |tokens| + 1 - consumed
      {
        ghost var c := consumed;
        var row := WordsBetweenPipes();
        rows := rows + [row.value];
        if currentToken != Eof {
          var _ := Eat();
        }
        assert consumed == NextRow(tokens, c);
      }
      r := LiftDataTable(LegacyModels.NewDataTable(rows));
    }

    /**
     * `examples`. The column titles are read at the newline or EOF the
     * title sentence stops at, where no pipe is ever held, so they always
     * throw and the data table and examples table after them are never
     * reached (see `ExamplesNeverReturnTable`); the method ends there.
     */
    method Examples() returns (r: Result<Option<LegacyModels.ExamplesTable>, InterpretError>)
      requires Valid()
      modifies this
      ensures Valid()
      ensures (r, consumed) == ExamplesOf(tokens, old(consumed))
    {
      if !IsExamplesKey(currentToken) {
        r := Success(None);
      } else {
        var title := Sentence();
        if title.None? {
          r := Failure(Interpreter(ExampleTableWithoutTitle));
        } else {
          var columns := WordsBetweenPipes();
          r := Failure(columns.error);
        }
      }
    }

    /** `scenario`. */
    method Scenario() returns (r: Result<LegacyScenario, InterpretError>)
      requires Valid()
      modifies this
      ensures Valid()
      ensures (r, consumed) == ScenarioOf(tokens, old(consumed))
    {
      var tagList := Tags();
      if !currentToken.ScenarioKeyToken? {
        return Failure(Interpreter(UnexpectedTerm(DescriptionValue(currentToken), ScenarioKeysExpected)));
      }
      var key := currentToken.key;
      var heading := TitleDescription(ScenarioFactor);
      if heading.Failure? {
        return Failure(heading.error);
      }
      var stepList := Steps();
      var outline: Ast.Outline<LegacyModels.ExamplesTable>;
      if IsOutlineKey(key) {
        var examples := Examples();
        match examples
        case Failure(e) =>
          return Failure(e);
        case Success(None) =>
          return Failure(Interpreter(ScenarioOutlineWithoutExamples));
        case Success(Some(table)) =>
          outline := Ast.OutlineOf(table);
      } else {
        outline := Ast.NotOutline;
      }
      r := LiftScenario(Ast.NewScenario(tagList, heading.value.title, heading.value.description, stepList, outline));
    }
  }
}
