/**
 * `CucumberScanner`: groups the lexer's tokens by line, classifies each
 * line with a fixed chain of element types (the first that accepts the line
 * decides), indexes the lines by line number, fills the gaps with empty
 * lines, and renders the result as text.
 */
module Scanning {
  import opened Common
  import opened Keywords
  import opened Tokens
  import opened ScannerElements
  import opened Matchers
  import opened CucumberLexing

  // ---------------------------------------------------------------------
  // tokensSplitByLines
  // ---------------------------------------------------------------------

  /** The tokens of a list of groups, one group after the other. */
  function Flatten(groups: seq<seq<Token>>): seq<Token>
    decreases |groups|
  {
    if groups == [] then [] else Flatten(groups[..|groups| - 1]) + groups[|groups| - 1]
  }

  /**
   * One step of the reduce: a token joins the last group when that group
   * ends on the token's line, and opens a new group otherwise (also when
   * the last group is still empty).
   */
  function AddToken(groups: seq<seq<Token>>, t: Token): seq<seq<Token>>
    requires groups != []
  {
    var last := groups[|groups| - 1];
    if last == [] || last[|last| - 1].location.line != t.location.line then groups + [[t]]
    else groups[..|groups| - 1] + [last + [t]]
  }

  /** A non-empty group whose tokens all lie on the line of its first token. */
  predicate OneLine(g: seq<Token>) {
    g != [] && forall j | 0 <= j < |g| :: g[j].location.line == g[0].location.line
  }

  /** Groups `g` and `g + 1` are non-empty and start on different lines. */
  predicate Apart(groups: seq<seq<Token>>, g: int)
    requires 0 <= g < |groups| - 1
  {
    groups[g] != [] && groups[g + 1] != [] && groups[g][0].location.line != groups[g + 1][0].location.line
  }

  /**
   * `tokensSplitByLines`: the reduce over the tokens, starting from one
   * empty group. The first group stays empty, every later group is not,
   * and the last token ends the last group.
   */
  function SplitByLines(ts: seq<Token>): (r: seq<seq<Token>>)
    ensures |r| >= 1 && r[0] == []
    ensures forall g | 1 <= g < |r| :: r[g] != []
    ensures ts == [] <==> |r| == 1
    ensures ts != [] ==> r[|r| - 1][|r[|r| - 1]| - 1] == ts[|ts| - 1]
    decreases |ts|
  {
    if ts == [] then [[]]
    else AddToken(SplitByLines(ts[..|ts| - 1]), ts[|ts| - 1])
  }

  /** The groups put together are the input. */
  lemma {:induction false} SplitFlattens(ts: seq<Token>)
    ensures Flatten(SplitByLines(ts)) == ts
    decreases |ts|
  {
    if ts != [] {
      var pre := ts[..|ts| - 1];
      var t := ts[|ts| - 1];
      SplitFlattens(pre);
      var prev := SplitByLines(pre);
      var last := prev[|prev| - 1];
      var r := SplitByLines(ts);
      assert ts == pre + [t];
      if last == [] || last[|last| - 1].location.line != t.location.line {
        assert r == prev + [[t]];
        assert r[..|r| - 1] == prev;
      } else {
        var k := |prev| - 1;
        assert r == prev[..k] + [last + [t]];
        assert r[..|r| - 1] == prev[..k];
        calc {
          Flatten(r);
          Flatten(prev[..k]) + (last + [t]);
          (Flatten(prev[..k]) + last) + [t];
          { assert prev[..|prev| - 1] == prev[..k]; }
          Flatten(prev) + [t];
        }
      }
    }
  }

  /** Every group after the first lies on one line. */
  predicate GroupsOneLine(groups: seq<seq<Token>>) {
    forall g | 1 <= g < |groups| :: OneLine(groups[g])
  }

  lemma {:induction false} SplitGroupsOneLine(ts: seq<Token>)
    ensures GroupsOneLine(SplitByLines(ts))
    decreases |ts|
  {
    if ts != [] {
      var pre := ts[..|ts| - 1];
      var t := ts[|ts| - 1];
      SplitGroupsOneLine(pre);
      var prev := SplitByLines(pre);
      var last := prev[|prev| - 1];
      var r := SplitByLines(ts);
      if last == [] || last[|last| - 1].location.line != t.location.line {
        assert r == prev + [[t]];
        assert OneLine([t]);
      } else {
        var k := |prev| - 1;
        assert k >= 1 by { assert prev[0] == []; }
        assert r == prev[..k] + [last + [t]];
        assert OneLine(prev[k]);
        assert OneLine(last + [t]);
        forall g | 1 <= g < |r| ensures OneLine(r[g]) {
          if g < k { assert r[g] == prev[g]; }
        }
      }
    }
  }

  /** Consecutive groups after the first start on different lines. */
  predicate GroupsApart(groups: seq<seq<Token>>) {
    forall g | 1 <= g < |groups| - 1 :: Apart(groups, g)
  }

  lemma {:induction false} SplitGroupsApart(ts: seq<Token>)
    ensures GroupsApart(SplitByLines(ts))
    decreases |ts|
  {
    if ts != [] {
      var pre := ts[..|ts| - 1];
      var t := ts[|ts| - 1];
      SplitGroupsApart(pre);
      SplitGroupsOneLine(pre);
      var prev := SplitByLines(pre);
      var last := prev[|prev| - 1];
      var r := SplitByLines(ts);
      if last == [] || last[|last| - 1].location.line != t.location.line {
        assert r == prev + [[t]];
        forall g | 1 <= g < |r| - 1 ensures Apart(r, g) {
          if g < |prev| - 1 {
            assert Apart(prev, g);
            assert r[g] == prev[g] && r[g + 1] == prev[g + 1];
          } else {
            assert g == |prev| - 1 && r[g] == last && r[g + 1] == [t];
            assert OneLine(prev[g]);
            assert last[|last| - 1].location.line == last[0].location.line;
          }
        }
      } else {
        var k := |prev| - 1;
        assert r == prev[..k] + [last + [t]];
        forall g | 1 <= g < |r| - 1 ensures Apart(r, g) {
          assert Apart(prev, g);
          assert r[g] == prev[g];
          if g + 1 < k {
            assert r[g + 1] == prev[g + 1];
          } else {
            assert r[g + 1] == last + [t] && prev[g + 1] == last;
          }
        }
      }
    }
  }

  /** Tokens as the lexer emits them: lines start at 1 and never decrease. */
  predicate LinesInOrder(ts: seq<Token>) {
    && (forall i | 0 <= i < |ts| :: ts[i].location.line >= 1)
    && (forall i, j | 0 <= i <= j < |ts| :: ts[i].location.line <= ts[j].location.line)
  }

  /** The line a group after the first starts on. */
  function StartLine(groups: seq<seq<Token>>, g: int): int
    requires 1 <= g < |groups| && groups[g] != []
  {
    groups[g][0].location.line
  }

  /** Every group after the first starts on a line of at least 1, each on a later line than the one before. */
  predicate IncreasingStarts(groups: seq<seq<Token>>)
    requires forall g | 1 <= g < |groups| :: groups[g] != []
  {
    && (forall g | 1 <= g < |groups| :: StartLine(groups, g) >= 1)
    && (forall g, h | 1 <= g < h < |groups| :: StartLine(groups, g) < StartLine(groups, h))
  }

  /** For tokens in line order, the groups start on increasing lines, all at least 1. */
  lemma {:induction false} SplitOfOrderedTokens(ts: seq<Token>)
    requires LinesInOrder(ts)
    ensures IncreasingStarts(SplitByLines(ts))
    decreases |ts|
  {
    if ts != [] {
      var pre := ts[..|ts| - 1];
      var t := ts[|ts| - 1];
      assert LinesInOrder(pre);
      SplitOfOrderedTokens(pre);
      SplitGroupsOneLine(pre);
      var prev := SplitByLines(pre);
      var last := prev[|prev| - 1];
      var r := SplitByLines(ts);
      assert t.location.line >= 1;
      if last == [] || last[|last| - 1].location.line != t.location.line {
        assert r == prev + [[t]];
        forall g | 1 <= g < |prev| ensures StartLine(r, g) == StartLine(prev, g) {
          assert r[g] == prev[g];
        }
        if last != [] {
          var k := |prev| - 1;
          assert k >= 1 by { assert prev[0] == []; }
          assert OneLine(prev[k]);
          assert last[|last| - 1] == pre[|pre| - 1];
          assert pre[|pre| - 1] == ts[|ts| - 2];
          assert StartLine(prev, k) < t.location.line;
          forall g | 1 <= g < k ensures StartLine(prev, g) < t.location.line {
          }
        }
        assert StartLine(r, |r| - 1) == t.location.line;
      } else {
        var k := |prev| - 1;
        assert r == prev[..k] + [last + [t]];
        forall g | 1 <= g < |r| ensures StartLine(r, g) == StartLine(prev, g) {
          if g < k { assert r[g] == prev[g]; }
        }
      }
    }
  }

  // ---------------------------------------------------------------------
  // parseLine
  // ---------------------------------------------------------------------

  /** The chain of responsibility, in the order the scanner tries it; `Other` comes last. */
  const Chain: seq<LineKind> :=
    [BackgroundLine, ExamplesLine, FeatureLine, RuleElement, ScenarioLine, StepLine,
     Language, Comment, DocStringSeparator, TagLine, TableRow, Other]

  /** The first element type of `Chain` from position `i` on that accepts the line. */
  function FirstRecognised(ts: seq<Token>, i: nat): Option<Line>
    requires i <= |Chain|
    decreases |Chain| - i
  {
    if i == |Chain| then None
    else
      match Recognise(Chain[i], ts)
      case Some(l) => Some(l)
      case None => FirstRecognised(ts, i + 1)
  }

  /**
   * The chain answers with the element of a type it tried, and it answers
   * nothing only when every type from position `i` on refuses the line.
   */
  lemma {:induction false} FirstRecognisedAnswers(ts: seq<Token>, i: nat)
    requires i <= |Chain|
    ensures var r := FirstRecognised(ts, i);
      r.Some? ==> exists j | i <= j < |Chain| :: Recognise(Chain[j], ts) == r
    ensures FirstRecognised(ts, i).None? <==> forall j | i <= j < |Chain| :: Recognise(Chain[j], ts).None?
    decreases |Chain| - i
  {
    if i < |Chain| {
      var here := Recognise(Chain[i], ts);
      if here.Some? {
        assert FirstRecognised(ts, i) == here;
      } else {
        FirstRecognisedAnswers(ts, i + 1);
        assert FirstRecognised(ts, i) == FirstRecognised(ts, i + 1);
      }
    }
  }

  /** The first element type in chain order that accepts the line decides it. */
  lemma {:induction false} FirstAcceptingDecides(ts: seq<Token>, i: nat, j: nat)
    requires i <= j < |Chain|
    requires Recognise(Chain[j], ts).Some?
    requires forall k | i <= k < j :: Recognise(Chain[k], ts).None?
    ensures FirstRecognised(ts, i) == Recognise(Chain[j], ts)
    decreases j - i
  {
    if i < j {
      FirstAcceptingDecides(ts, i + 1, j);
    }
  }

  /**
   * `parseLine(with:)`: no line for an empty run or one that starts with
   * EOF; otherwise the element of the first accepting type. `Other`
   * accepts every run, so the fallback to `Empty` is never taken.
   */
  function ParseLine(ts: seq<Token>): (r: Option<Line>)
    ensures r.None? <==> ts == [] || ts[0].tokenType.Eof?
    ensures r.Some? ==> r.value.kind in Chain && r.value.location.line == ts[0].location.line
  {
    if ts == [] || ts[0].tokenType.Eof? then None
    else
      FirstRecognisedAnswers(ts, 0);
      assert Chain[11] == Other && Recognise(Other, ts).Some?;
      Some(FirstRecognised(ts, 0).GetOr(EmptyAt(ts[0].location)))
  }

  /**
   * The element kind of a run, decided directly from its first token (and,
   * for separators and rows, its shape), in chain order.
   */
  function KindOf(ts: seq<Token>): LineKind
    requires ts != []
  {
    var t := ts[0];
    if IsPrimary(t, Background) then BackgroundLine
    else if IsPrimary(t, Examples) then ExamplesLine
    else if IsPrimary(t, Feature) then FeatureLine
    else if IsPrimary(t, Rule) then RuleElement
    else if IsScenarioToken(t) then ScenarioLine
    else if IsStep(t) then StepLine
    else if t.tokenType.LanguageToken? then Language
    else if t.tokenType.CommentToken? then Comment
    else if |ts| == 1 && IsDocStringKeyword(t) then DocStringSeparator
    else if IsTag(t) then TagLine
    else if IsPipe(t) && IsPipe(ts[|ts| - 1]) then TableRow
    else Other
  }

  /** The position of an element type in the chain. */
  function ChainIndex(k: LineKind): (j: nat)
    requires k in Chain
    ensures j < |Chain| && Chain[j] == k
  {
    if k == BackgroundLine then 0
    else if k == ExamplesLine then 1
    else if k == FeatureLine then 2
    else if k == RuleElement then 3
    else if k == ScenarioLine then 4
    else if k == StepLine then 5
    else if k == Language then 6
    else if k == Comment then 7
    else if k == DocStringSeparator then 8
    else if k == TagLine then 9
    else if k == TableRow then 10
    else 11
  }

  /** The chain of element types classifies a line as `KindOf` does. */
  lemma ParseLineKind(ts: seq<Token>)
    requires ts != [] && !ts[0].tokenType.Eof?
    ensures ParseLine(ts).Some? && ParseLine(ts).value.kind == KindOf(ts)
  {
    var j := ChainIndex(KindOf(ts));
    forall i | 0 <= i < j ensures Recognise(Chain[i], ts).None? {
      assert !Accepts(Chain[i], ts);
    }
    assert Accepts(Chain[j], ts);
    FirstAcceptingDecides(ts, 0, j);
  }

  /** A run that one of the element types before `Other` accepts. */
  predicate ClaimedBeforeOther(ts: seq<Token>)
    requires ts != []
  {
    exists i | 0 <= i < |Chain| - 1 :: Accepts(Chain[i], ts)
  }

  /** `KindOf` names each kind exactly when its condition on the first token holds. */
  lemma KindOfByFirstToken(ts: seq<Token>)
    requires ts != []
    ensures var k := KindOf(ts); var t := ts[0];
      && (k == BackgroundLine <==> IsPrimary(t, Background))
      && (k == ExamplesLine <==> IsPrimary(t, Examples))
      && (k == FeatureLine <==> IsPrimary(t, Feature))
      && (k == RuleElement <==> IsPrimary(t, Rule))
      && (k == ScenarioLine <==> IsScenarioToken(t))
      && (k == StepLine <==> IsStep(t))
      && (k == Language <==> t.tokenType.LanguageToken?)
      && (k == Comment <==> t.tokenType.CommentToken?)
      && (k == DocStringSeparator <==> |ts| == 1 && IsDocStringKeyword(t))
      && (k == TagLine <==> IsTag(t))
      && (k == TableRow <==> IsPipe(t) && IsPipe(ts[|ts| - 1]))
  {
  }

  /** `KindOf` falls back to `Other` exactly when no earlier element type accepts the run. */
  lemma KindOfOther(ts: seq<Token>)
    requires ts != []
    ensures KindOf(ts) == Other <==> !ClaimedBeforeOther(ts)
  {
    if KindOf(ts) == Other {
      forall i | 0 <= i < |Chain| - 1 ensures !Accepts(Chain[i], ts) {
      }
    } else {
      var j := ChainIndex(KindOf(ts));
      assert Accepts(Chain[j], ts);
    }
  }

  /** The element kind of a line is decided by its first token (and, for rows and separators, its shape). */
  lemma ClassificationByFirstToken(ts: seq<Token>)
    requires ts != [] && !ts[0].tokenType.Eof?
    ensures var k := ParseLine(ts).value.kind; var t := ts[0];
      && (k == BackgroundLine <==> IsPrimary(t, Background))
      && (k == ExamplesLine <==> IsPrimary(t, Examples))
      && (k == FeatureLine <==> IsPrimary(t, Feature))
      && (k == RuleElement <==> IsPrimary(t, Rule))
      && (k == ScenarioLine <==> IsScenarioToken(t))
      && (k == StepLine <==> IsStep(t))
      && (k == Language <==> t.tokenType.LanguageToken?)
      && (k == Comment <==> t.tokenType.CommentToken?)
      && (k == DocStringSeparator <==> |ts| == 1 && IsDocStringKeyword(t))
      && (k == TagLine <==> IsTag(t))
      && (k == TableRow <==> IsPipe(t) && IsPipe(ts[|ts| - 1]))
      && (k == Other <==> !ClaimedBeforeOther(ts))
  {
    ParseLineKind(ts);
    KindOfByFirstToken(ts);
    KindOfOther(ts);
  }

  // ---------------------------------------------------------------------
  // parseLines
  // ---------------------------------------------------------------------

  /** The run-time traps of `parseLines`: a duplicate key, or a range `1...max` with `max < 1`. */
  datatype ScanTrap = DuplicateLine(line: int) | ReversedRange(upper: int)

  /** The `compactMap` of `parseLine` over the groups, in order. */
  function Rows(groups: seq<seq<Token>>): (r: seq<Line>)
    ensures |r| <= |groups|
    decreases |groups|
  {
    if groups == [] then []
    else
      var rest := Rows(groups[..|groups| - 1]);
      match ParseLine(groups[|groups| - 1])
      case None => rest
      case Some(l) => rest + [l]
  }

  function LineOf(l: Line): int {
    l.location.line
  }

  /** Each row number appears once: the keys of `Dictionary(uniqueKeysWithValues:)` are unique. */
  predicate UniqueLines(rows: seq<Line>) {
    forall i, j | 0 <= i < j < |rows| :: LineOf(rows[i]) != LineOf(rows[j])
  }

  function LineNumbers(rows: seq<Line>): (s: set<int>)
    ensures forall i | 0 <= i < |rows| :: LineOf(rows[i]) in s
    ensures forall n | n in s :: exists i :: 0 <= i < |rows| && LineOf(rows[i]) == n
  {
    set i | 0 <= i < |rows| :: LineOf(rows[i])
  }

  /** `keys.max()`: the largest line number. */
  function MaxLine(rows: seq<Line>): (m: int)
    requires rows != []
    ensures m in LineNumbers(rows)
    ensures forall i | 0 <= i < |rows| :: LineOf(rows[i]) <= m
    decreases |rows|
  {
    if |rows| == 1 then LineOf(rows[0])
    else
      var m := MaxLine(rows[1..]);
      assert forall i | 1 <= i < |rows| :: rows[i] == rows[1..][i - 1];
      if LineOf(rows[0]) >= m then LineOf(rows[0]) else m
  }

  /** The integers from `lo` up to, not including, `hi`. */
  function Range(lo: int, hi: int): (r: set<int>)
    ensures forall n :: n in r <==> lo <= n < hi
    decreases hi - lo
  {
    if hi <= lo then {} else Range(lo, hi - 1) + {hi - 1}
  }

  /** The line numbers that are filled with empty lines: `1...max`, or none. */
  function FilledRange(rows: seq<Line>): set<int> {
    if rows == [] then {} else Range(1, MaxLine(rows) + 1)
  }

  /**
   * `Dictionary(uniqueKeysWithValues:)` over the rows: each row under its
   * line number; a line number seen twice traps.
   */
  method IndexRows(rows: seq<Line>) returns (r: Result<map<int, Line>, ScanTrap>)
    ensures r.Failure? <==> !UniqueLines(rows)
    ensures r.Success? ==> (
      && r.value.Keys == LineNumbers(rows)
      && forall i | 0 <= i < |rows| :: r.value[LineOf(rows[i])] == rows[i])
  {
    var dictionary: map<int, Line> := map[];
    for i := 0 to |rows|
      invariant forall j, k | 0 <= j < k < i :: LineOf(rows[j]) != LineOf(rows[k])
      invariant forall n | n in dictionary :: exists j :: 0 <= j < i && LineOf(rows[j]) == n
      invariant forall j | 0 <= j < i :: LineOf(rows[j]) in dictionary && dictionary[LineOf(rows[j])] == rows[j]
    {
      if LineOf(rows[i]) in dictionary {
        var j :| 0 <= j < i && LineOf(rows[j]) == LineOf(rows[i]);
        assert !UniqueLines(rows);
        return Failure(DuplicateLine(LineOf(rows[i])));
      }
      dictionary := dictionary[LineOf(rows[i]) := rows[i]];
    }
    forall n ensures n in dictionary.Keys <==> n in LineNumbers(rows) {
      if n in LineNumbers(rows) {
        var j :| 0 <= j < |rows| && LineOf(rows[j]) == n;
      }
    }
    r := Success(dictionary);
  }

  /**
   * The `forEach` over `1...max`: every missing line number in the range
   * gets an empty line at column 1; the lines already there are kept.
   */
  method FillGaps(dictionary: map<int, Line>, max: int) returns (filled: map<int, Line>)
    requires max >= 1
    ensures filled.Keys == dictionary.Keys + Range(1, max + 1)
    ensures forall n | n in dictionary :: filled[n] == dictionary[n]
    ensures forall n | n in filled && n !in dictionary :: filled[n] == EmptyAt(Location(1, n))
  {
    filled := dictionary;
    for index := 1 to max + 1
      invariant filled.Keys == dictionary.Keys + Range(1, index)
      invariant forall n | n in dictionary :: filled[n] == dictionary[n]
      invariant forall n | n in filled && n !in dictionary :: filled[n] == EmptyAt(Location(1, n))
    {
      if index !in filled {
        filled := filled[index := EmptyAt(Location(1, index))];
      }
    }
  }

  /**
   * `parseLines` on the tokens the lexer returned: the lines indexed by
   * number, with every number from 1 to the largest one present and the
   * missing ones filled with empty lines at column 1. A duplicate line
   * number, or a largest line number below 1, traps.
   */
  method LinesOf(tokens: seq<Token>) returns (r: Result<map<int, Line>, ScanTrap>)
    ensures var rows := Rows(SplitByLines(tokens));
      r.Failure? <==> !UniqueLines(rows) || (rows != [] && MaxLine(rows) < 1)
    ensures var rows := Rows(SplitByLines(tokens));
      r.Success? ==>
        && r.value.Keys == LineNumbers(rows) + FilledRange(rows)
        && (forall i | 0 <= i < |rows| :: r.value[LineOf(rows[i])] == rows[i])
        && (forall n | n in r.value && n !in LineNumbers(rows) :: r.value[n] == EmptyAt(Location(1, n)))
  {
    var rows := Rows(SplitByLines(tokens));
    var indexed := IndexRows(rows);
    if indexed.Failure? {
      return indexed;
    }
    var dictionary := indexed.value;
    if rows != [] {
      var max := MaxLine(rows);
      if max < 1 {
        return Failure(ReversedRange(max));
      }
      dictionary := FillGaps(dictionary, max);
    }
    r := Success(dictionary);
  }

  /** Every non-empty group starts on a line below `bound`. */
  predicate StartsBelow(groups: seq<seq<Token>>, bound: int) {
    forall g | 0 <= g < |groups| && groups[g] != [] :: groups[g][0].location.line < bound
  }

  /** The rows' line numbers are all at least 1 and strictly increasing. */
  predicate IncreasingRows(rows: seq<Line>) {
    && (forall i | 0 <= i < |rows| :: LineOf(rows[i]) >= 1)
    && (forall i, j | 0 <= i < j < |rows| :: LineOf(rows[i]) < LineOf(rows[j]))
  }

  /** Every line number a row receives is the line of its group's first token. */
  lemma {:induction false} RowLinesBelow(groups: seq<seq<Token>>, bound: int)
    requires StartsBelow(groups, bound)
    ensures forall i | 0 <= i < |Rows(groups)| :: LineOf(Rows(groups)[i]) < bound
    decreases |groups|
  {
    if groups != [] {
      var pre := groups[..|groups| - 1];
      assert StartsBelow(pre, bound) by {
        forall g | 0 <= g < |pre| && pre[g] != [] ensures pre[g][0].location.line < bound {
          assert pre[g] == groups[g];
        }
      }
      RowLinesBelow(pre, bound);
    }
  }

  /** Dropping the last group keeps the starts increasing, and all of them below the last group's start. */
  lemma PrefixStarts(groups: seq<seq<Token>>)
    requires |groups| > 1 && groups[0] == []
    requires forall g | 1 <= g < |groups| :: groups[g] != []
    requires IncreasingStarts(groups)
    ensures var pre := groups[..|groups| - 1];
      && (forall g | 1 <= g < |pre| :: pre[g] != [])
      && IncreasingStarts(pre)
      && StartsBelow(pre, StartLine(groups, |groups| - 1))
  {
    var n := |groups| - 1;
    var pre := groups[..n];
    forall g | 1 <= g < n ensures StartLine(pre, g) == StartLine(groups, g) {
      assert pre[g] == groups[g];
    }
    forall g | 0 <= g < |pre| && pre[g] != [] ensures pre[g][0].location.line < StartLine(groups, n) {
      assert pre[g] == groups[g];
      assert g != 0;
      assert StartLine(groups, g) < StartLine(groups, n);
    }
  }

  /** Rows of groups that start on increasing lines, all at least 1, have increasing line numbers, all at least 1. */
  lemma {:induction false} RowsOfOrderedGroups(groups: seq<seq<Token>>)
    requires groups != [] && groups[0] == []
    requires forall g | 1 <= g < |groups| :: groups[g] != []
    requires IncreasingStarts(groups)
    ensures IncreasingRows(Rows(groups))
    decreases |groups|
  {
    if |groups| > 1 {
      var n := |groups| - 1;
      var pre := groups[..n];
      PrefixStarts(groups);
      RowsOfOrderedGroups(pre);
      RowLinesBelow(pre, StartLine(groups, n));
      var p := ParseLine(groups[n]);
      AppendRow(Rows(pre), p, StartLine(groups, n));
      assert Rows(groups) == Rows(pre) + (if p.Some? then [p.value] else []);
    }
  }

  /** Appending the row of a group, if any, that starts on a later line than all rows keeps the rows increasing. */
  lemma AppendRow(rows: seq<Line>, p: Option<Line>, bound: int)
    requires IncreasingRows(rows)
    requires forall i | 0 <= i < |rows| :: LineOf(rows[i]) < bound
    requires p.Some? ==> LineOf(p.value) == bound >= 1
    ensures IncreasingRows(rows + (if p.Some? then [p.value] else []))
  {
    if p.Some? {
      AppendIncreasing(rows, p.value);
    } else {
      assert rows + [] == rows;
    }
  }

  /** A row on a later line than all others, and at least 1, keeps the rows increasing. */
  lemma AppendIncreasing(rows: seq<Line>, l: Line)
    requires IncreasingRows(rows) && LineOf(l) >= 1
    requires forall i | 0 <= i < |rows| :: LineOf(rows[i]) < LineOf(l)
    ensures IncreasingRows(rows + [l])
  {
    assert forall i | 0 <= i < |rows| :: (rows + [l])[i] == rows[i];
  }

  /**
   * On tokens in line order, as the lexer emits them, `parseLines` never
   * traps.
   */
  lemma OrderedTokensNeverTrap(tokens: seq<Token>)
    requires LinesInOrder(tokens)
    ensures var rows := Rows(SplitByLines(tokens));
      UniqueLines(rows) && (rows != [] ==> MaxLine(rows) >= 1)
  {
    SplitOfOrderedTokens(tokens);
    RowsOfOrderedGroups(SplitByLines(tokens));
    var rows := Rows(SplitByLines(tokens));
    assert IncreasingRows(rows);
    if rows != [] {
      assert LineOf(rows[0]) <= MaxLine(rows);
    }
  }

  /**
   * On tokens in line order the numbered lines are exactly `1...max`: every
   * row falls inside the range, and the range is complete.
   */
  lemma OrderedTokensFillRange(tokens: seq<Token>)
    requires LinesInOrder(tokens)
    ensures var rows := Rows(SplitByLines(tokens));
      LineNumbers(rows) + FilledRange(rows) == FilledRange(rows)
  {
    SplitOfOrderedTokens(tokens);
    RowsOfOrderedGroups(SplitByLines(tokens));
    var rows := Rows(SplitByLines(tokens));
    assert IncreasingRows(rows);
    forall n | n in LineNumbers(rows) ensures n in FilledRange(rows) {
      var i :| 0 <= i < |rows| && LineOf(rows[i]) == n;
      assert LineOf(rows[i]) <= MaxLine(rows);
    }
  }

  /** The rows `parseLines` recognises in the lexed text. */
  ghost function ScannedRows(text: string, tr: Translations): seq<Line>
    requires WellFormedTable(tr)
  {
    Rows(SplitByLines(Lex(text, 0, NoContext, tr)))
  }

  /**
   * The dictionary `parseLines` builds from the rows: exactly the numbers
   * `1...max`, each row under its own line number, and an empty line at
   * column 1 under every other number.
   */
  ghost predicate IndexesRows(lines: map<int, Line>, rows: seq<Line>) {
    && lines.Keys == FilledRange(rows)
    && (forall i | 0 <= i < |rows| :: LineOf(rows[i]) in lines && lines[LineOf(rows[i])] == rows[i])
    && (forall n | n in lines && n !in LineNumbers(rows) :: lines[n] == EmptyAt(Location(1, n)))
  }

  // ---------------------------------------------------------------------
  // stringLines
  // ---------------------------------------------------------------------

  /** The lines of the map, in ascending order of line number, each rendered. */
  function Descriptions(m: map<int, Line>): (r: seq<string>)
    ensures |r| == |m.Keys|
  {
    var keys := SortedKeys(m.Keys);
    seq(|keys|, i requires 0 <= i < |keys| => Description(m[keys[i]]))
  }

  /**
   * A strictly increasing list of integers that holds exactly the numbers
   * from `lo` below `hi` is `lo, lo + 1, ...`, one entry per number.
   */
  lemma {:induction false} IncreasingOverRange(r: seq<int>, lo: int, hi: int)
    requires forall x :: lo <= x < hi <==> x in r
    requires forall i, j | 0 <= i < j < |r| :: r[i] < r[j]
    ensures forall i | 0 <= i < |r| :: r[i] == lo + i
    ensures |r| == if hi > lo then hi - lo else 0
  {
    forall i | 0 <= i < |r| ensures r[i] == lo + i {
      IncreasingOverRangeAt(r, lo, hi, i);
    }
    if |r| > 0 {
      assert r[|r| - 1] in r;
    }
    if hi > lo {
      assert hi - 1 in r;
      var j :| 0 <= j < |r| && r[j] == hi - 1;
      assert r[j] == lo + j;
    }
  }

  lemma {:induction false} IncreasingOverRangeAt(r: seq<int>, lo: int, hi: int, i: nat)
    requires forall x :: lo <= x < hi <==> x in r
    requires forall i, j | 0 <= i < j < |r| :: r[i] < r[j]
    requires i < |r|
    ensures r[i] == lo + i
    decreases i
  {
    if i > 0 {
      IncreasingOverRangeAt(r, lo, hi, i - 1);
    }
    assert r[i] in r;
    assert lo + i in r;
    var j :| 0 <= j < |r| && r[j] == lo + i;
    if j < i {
      IncreasingOverRangeAt(r, lo, hi, j);
    }
  }

  /** Each item of the descriptions renders the line under the next key in ascending order. */
  lemma DescriptionsInKeyOrder(m: map<int, Line>)
    ensures var keys := SortedKeys(m.Keys);
      && |Descriptions(m)| == |keys|
      && (forall i | 0 <= i < |keys| :: keys[i] in m && Descriptions(m)[i] == Description(m[keys[i]]))
      && (forall i, j | 0 <= i < j < |keys| :: keys[i] < keys[j])
  {
  }

  /**
   * For a dictionary numbered `1...max`, as `parseLines` returns one, the
   * descriptions render lines `1...max` in order: item `n - 1` renders line `n`.
   */
  lemma NumberedDescriptions(m: map<int, Line>, max: int)
    requires m.Keys == Range(1, max + 1)
    ensures |Descriptions(m)| == (if max >= 1 then max else 0)
    ensures forall n | 1 <= n <= |Descriptions(m)| :: n in m && Descriptions(m)[n - 1] == Description(m[n])
  {
    var keys := SortedKeys(m.Keys);
    DescriptionsInKeyOrder(m);
    assert forall x :: 1 <= x < max + 1 <==> x in keys by {
      forall x ensures 1 <= x < max + 1 <==> x in keys {
        assert x in m.Keys <==> x in keys;
        assert x in Range(1, max + 1) <==> 1 <= x < max + 1;
      }
    }
    NumberedItems(m, keys, Descriptions(m), max);
  }

  /** `NumberedDescriptions` over any key list and item list that stand in the `Descriptions` relation. */
  lemma NumberedItems(m: map<int, Line>, keys: seq<int>, d: seq<string>, max: int)
    requires forall x :: 1 <= x < max + 1 <==> x in keys
    requires forall i, j | 0 <= i < j < |keys| :: keys[i] < keys[j]
    requires |d| == |keys|
    requires forall i | 0 <= i < |keys| :: keys[i] in m && d[i] == Description(m[keys[i]])
    ensures |d| == (if max >= 1 then max else 0)
    ensures forall n | 1 <= n <= |d| :: n in m && d[n - 1] == Description(m[n])
  {
    IncreasingOverRange(keys, 1, max + 1);
    assert |d| == (if max >= 1 then max else 0);
    forall n | 1 <= n <= |d| ensures n in m && d[n - 1] == Description(m[n]) {
      assert keys[n - 1] in m && d[n - 1] == Description(m[keys[n - 1]]);
      assert keys[n - 1] == n;
    }
  }

  /** Every part followed by a line break. */
  function Terminated(parts: seq<string>): (r: string)
    ensures |r| >= |parts|
    decreases |parts|
  {
    if parts == [] then "" else parts[0] + "\n" + Terminated(parts[1..])
  }

  /** Joining with a final part by line breaks, plus a final break, puts each part on a line of its own. */
  lemma {:induction false} JoinAsLines(parts: seq<string>, last: string)
    ensures Join(parts + [last], "\n") + "\n" == Terminated(parts) + last + "\n"
    decreases |parts|
  {
    if parts == [] {
      assert parts + [last] == [last];
    } else {
      var all := parts + [last];
      assert all[1..] == parts[1..] + [last];
      JoinAsLines(parts[1..], last);
      calc {
        Join(all, "\n") + "\n";
        parts[0] + "\n" + Join(all[1..], "\n") + "\n";
        parts[0] + "\n" + (Join(all[1..], "\n") + "\n");
        parts[0] + "\n" + (Terminated(parts[1..]) + last + "\n");
        (parts[0] + "\n" + Terminated(parts[1..])) + last + "\n";
      }
    }
  }

  /**
   * `stringLines` as text: the description of every line, in ascending
   * order of line number, each followed by a line break, then `EOF` and a
   * line break.
   */
  lemma RenderIsTerminatedLines(m: map<int, Line>)
    ensures Render(m) == Terminated(Descriptions(m)) + "EOF\n"
  {
    JoinAsLines(Descriptions(m), "EOF");
  }

  /** `joined(separator:)` of a non-empty list ends with its last part. */
  lemma {:induction false} JoinEndsWithLast(parts: seq<string>, separator: string)
    requires parts != []
    ensures var r := Join(parts, separator); var last := parts[|parts| - 1];
      |last| <= |r| && r[|r| - |last|..] == last
    decreases |parts|
  {
    if |parts| > 1 {
      JoinEndsWithLast(parts[1..], separator);
      assert parts[1..][|parts[1..]| - 1] == parts[|parts| - 1];
    }
  }

  /** Joining with a final `EOF` part and a newline leaves the text ending in `EOF` and a newline. */
  lemma RenderTail(parts: seq<string>)
    ensures var r := Join(parts + ["EOF"], "\n") + "\n"; |r| >= 4 && r[|r| - 4..] == "EOF\n"
  {
    var all := parts + ["EOF"];
    JoinEndsWithLast(all, "\n");
    var joined := Join(all, "\n");
    assert joined[|joined| - 3..] == "EOF";
    var r := joined + "\n";
    assert r[|r| - 4..] == joined[|joined| - 3..] + "\n";
  }

  /**
   * `stringLines` on the indexed lines: the rendering of every line in
   * ascending order of line number, then `EOF`, each on a line of its own.
   */
  function Render(m: map<int, Line>): (r: string)
    ensures |r| >= 4 && r[|r| - 4..] == "EOF\n"
  {
    RenderTail(Descriptions(m));
    Join(Descriptions(m) + ["EOF"], "\n") + "\n"
  }

  /**
   * When every row number lies within `1...max`, the dictionary built from
   * the rows has exactly those numbers, and none below 1 or missing.
   */
  lemma IndexedOrderedRows(lines: map<int, Line>, rows: seq<Line>)
    requires LineNumbers(rows) + FilledRange(rows) == FilledRange(rows)
    requires lines.Keys == LineNumbers(rows) + FilledRange(rows)
    requires forall i | 0 <= i < |rows| :: lines[LineOf(rows[i])] == rows[i]
    requires forall n | n in lines && n !in LineNumbers(rows) :: lines[n] == EmptyAt(Location(1, n))
    ensures IndexesRows(lines, rows)
    ensures forall n | n in lines :: n >= 1
    ensures forall n | 1 <= n && (exists k | k in lines :: n <= k) :: n in lines
  {
  }

  /** The scanner over a lexer. */
  class CucumberScanner {
    const lexer: CucumberLexer

    constructor(lexer: CucumberLexer)
      ensures this.lexer == lexer
    {
      this.lexer := lexer;
    }

    /**
     * `parseLines`: lexes the feature and indexes its lines: every row
     * recognised under its own line number, an empty line at column 1 under
     * each missing number, and nothing else. The lexer's tokens are in line
     * order, so the dictionary never traps, and the numbers are exactly
     * `1...max`; the lexer is left as it was.
     */
    method ParseLines() returns (lines: map<int, Line>)
      requires lexer.Valid()
      modifies lexer
      ensures lexer.Valid() && lexer.position == old(lexer.position) && lexer.currentChar == old(lexer.currentChar)
      ensures lexer.currentContext == old(lexer.currentContext) && lexer.currentLocation == old(lexer.currentLocation)
      ensures IndexesRows(lines, ScannedRows(lexer.text, lexer.translations))
      ensures forall n | n in lines :: n >= 1
      ensures forall n | 1 <= n && (exists k | k in lines :: n <= k) :: n in lines
    {
      var tokens := lexer.Parse();
      assert LinesInOrder(tokens);
      OrderedTokensNeverTrap(tokens);
      OrderedTokensFillRange(tokens);
      var r := LinesOf(tokens);
      lines := r.value;
      IndexedOrderedRows(lines, Rows(SplitByLines(tokens)));
    }

    /**
     * `stringLines`: the scanned lines rendered in ascending order of line
     * number, then `EOF`; `lines` is the dictionary `parseLines` built.
     */
    method StringLines() returns (s: string, ghost lines: map<int, Line>)
      requires lexer.Valid()
      modifies lexer
      ensures lexer.Valid() && lexer.position == old(lexer.position) && lexer.currentChar == old(lexer.currentChar)
      ensures lexer.currentContext == old(lexer.currentContext) && lexer.currentLocation == old(lexer.currentLocation)
      ensures IndexesRows(lines, ScannedRows(lexer.text, lexer.translations))
      ensures s == Render(lines)
      ensures |s| >= 4 && s[|s| - 4..] == "EOF\n"
    {
      var parsed := ParseLines();
      lines := parsed;
      s := Render(parsed);
    }
  }
}
