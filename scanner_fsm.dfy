/**
 * `ScannerFSM`: the grammar of a feature file as a finite automaton over
 * scanner elements. Each state lists the element kinds it accepts and the
 * state each one leads to; any other element is an error. In the table
 * state the automaton also checks that every row has the cell count of the
 * row that opened the table.
 */
module ScannerStateMachine {
  import opened Common
  import opened ScannerElements

  /** `ScannerFSM.State`. */
  datatype State =
    | BeforeFeature
    | FeatureTag
    | InFeature
    | InScenario
    | ScenarioTag
    | InStep
    | InTable(cellCount: nat)
    | InDocString
    | InExamples

  /**
   * What an error says was expected: an element kind, or any first-level
   * element (`FirstLevelScannerElemenDescriptor`).
   */
  datatype Expected = ExpectKind(kind: LineKind) | ExpectFirstLevel

  /** `ScannerUnexpectedElement` and `InconsistentCellCount`. */
  datatype ScannerError =
    | UnexpectedElement(unexpected: Line, expected: seq<Expected>)
    | InconsistentCellCount

  /**
   * The element kinds that open a scenario-level block: scenario,
   * background and rule lines. The automaton is meant to accept them
   * wherever it accepts a `FirstLevelScannerElement`.
   */
  const FirstLevelKinds: set<LineKind> := {ScenarioLine, BackgroundLine, RuleElement, RuleLine}

  predicate IsFirstLevel(k: LineKind) {
    k in FirstLevelKinds
  }

  /** Comments and empty lines are not part of the grammar. */
  predicate IsTransparent(k: LineKind) {
    k == Comment || k == Empty
  }

  /**
   * The intended transition function of `changeState`: the next state, or
   * the error thrown for an element the state does not accept, with the
   * scenario, background and rule lines matching the first-level cases.
   */
  function Next(s: State, l: Line): (r: Result<State, ScannerError>)
    ensures r.Failure? && r.error.UnexpectedElement? ==> r.error.unexpected == l && r.error.expected != []
    ensures r.Failure? && r.error == InconsistentCellCount ==> s.InTable? && l.kind == TableRow
  {
    Transition(FirstLevelKinds, s, l)
  }

  /**
   * `changeState` as written: no element type conforms to
   * `FirstLevelScannerElement` (only the descriptor used in error messages
   * does), so the first-level cases never match any element.
   */
  function NextAsWritten(s: State, l: Line): (r: Result<State, ScannerError>)
    ensures r.Failure? && r.error.UnexpectedElement? ==> r.error.unexpected == l && r.error.expected != []
    ensures r.Failure? && r.error == InconsistentCellCount ==> s.InTable? && l.kind == TableRow
  {
    Transition({}, s, l)
  }

  /**
   * The transitions of `changeState`, given the element kinds that match
   * the `is FirstLevelScannerElement` cases.
   */
  function Transition(firstLevel: set<LineKind>, s: State, l: Line): (r: Result<State, ScannerError>)
    ensures r.Failure? && r.error.UnexpectedElement? ==> r.error.unexpected == l && r.error.expected != []
    ensures r.Failure? && r.error == InconsistentCellCount ==> s.InTable? && l.kind == TableRow
  {
    var k := l.kind;
    if IsTransparent(k) then Success(s)
    else
      match s
      case BeforeFeature =>
        if k == Language then Success(s)
        else if k == TagLine then Success(FeatureTag)
        else if k == FeatureLine then Success(InFeature)
        else if k == EndOfFile then Success(s)
        else Failure(UnexpectedElement(l, [ExpectKind(Language), ExpectKind(TagLine), ExpectKind(FeatureLine), ExpectKind(EndOfFile)]))
      case FeatureTag =>
        if k == TagLine then Success(FeatureTag)
        else if k == FeatureLine then Success(InFeature)
        else Failure(UnexpectedElement(l, [ExpectKind(TagLine), ExpectKind(FeatureLine)]))
      case InFeature =>
        if k == Other then Success(s)
        else if k == TagLine then Success(ScenarioTag)
        else if k in firstLevel then Success(InScenario)
        else if k == EndOfFile then Success(s)
        else Failure(UnexpectedElement(l, [ExpectKind(Other), ExpectKind(TagLine), ExpectFirstLevel, ExpectKind(EndOfFile)]))
      case ScenarioTag =>
        if k == TagLine then Success(s)
        else if k in firstLevel then Success(InScenario)
        else if k == ExamplesLine then Success(InExamples)
        else Failure(UnexpectedElement(l, [ExpectKind(ExamplesLine), ExpectKind(TagLine), ExpectFirstLevel]))
      case InScenario =>
        if k == Other || k in firstLevel then Success(s)
        else if k == StepLine then Success(InStep)
        else if k == ExamplesLine then Success(InExamples)
        else if k == EndOfFile then Success(s)
        else Failure(UnexpectedElement(l, [ExpectKind(Other), ExpectKind(StepLine), ExpectKind(ExamplesLine), ExpectKind(EndOfFile)]))
      case InStep =>
        if k == StepLine then Success(s)
        else if k == TagLine then Success(ScenarioTag)
        else if k == DocStringSeparator then Success(InDocString)
        else if k == ExamplesLine then Success(InExamples)
        else if k == TableRow then Success(InTable(|l.items|))
        else if k in firstLevel then Success(InScenario)
        else if k == EndOfFile then Success(s)
        else Failure(UnexpectedElement(l, [ExpectKind(StepLine), ExpectKind(TagLine), ExpectKind(DocStringSeparator),
          ExpectKind(ExamplesLine), ExpectKind(TableRow), ExpectFirstLevel, ExpectKind(EndOfFile)]))
      case InDocString =>
        if k == DocStringSeparator then Success(InStep)
        else if k == Other then Success(s)
        else Failure(UnexpectedElement(l, [ExpectKind(DocStringSeparator), ExpectKind(Other)]))
      case InTable(cells) =>
        if k == TableRow then
          if cells != |l.items| then Failure(InconsistentCellCount) else Success(s)
        else if k == StepLine then Success(InStep)
        else if k in firstLevel then Success(InScenario)
        else if k == TagLine then Success(ScenarioTag)
        else if k == ExamplesLine then Success(InExamples)
        else if k == EndOfFile then Success(s)
        else Failure(UnexpectedElement(l, [ExpectKind(TableRow), ExpectKind(StepLine), ExpectFirstLevel,
          ExpectKind(TagLine), ExpectKind(ExamplesLine), ExpectKind(EndOfFile)]))
      case InExamples =>
        if k == Other then Success(s)
        else if k == TableRow then Success(InTable(|l.items|))
        else if k == TagLine then Success(ScenarioTag)
        else if k in firstLevel then Success(InScenario)
        else if k == EndOfFile then Success(s)
        else Failure(UnexpectedElement(l, [ExpectKind(Other), ExpectKind(TableRow), ExpectKind(TagLine),
          ExpectFirstLevel, ExpectKind(EndOfFile)]))
  }

  /** The automaton of `ScannerFSM`, holding its current state. */
  class ScannerFSM {
    var state: State

    /** The automaton starts before the feature. */
    constructor()
      ensures state == BeforeFeature
    {
      state := BeforeFeature;
    }

    /** `isEOFAmmissible`: the input may end anywhere except right after a scenario's tags. */
    function IsEOFAdmissible(): (r: bool)
      reads this
      ensures r <==> state != ScenarioTag
    {
      state != ScenarioTag
    }

    /**
     * `changeState(element:)`: takes the transition for the element, or
     * reports the error and keeps the state.
     */
    method ChangeState(element: Line) returns (error: Option<ScannerError>)
      modifies this
      ensures Next(old(state), element).Success? ==> error.None? && state == Next(old(state), element).value
      ensures Next(old(state), element).Failure? ==> error == Some(Next(old(state), element).error) && state == old(state)
    {
      var k := element.kind;
      error := None;
      if k == Comment || k == Empty {
        return;
      }
      match state {
        case BeforeFeature =>
          if k == TagLine {
            state := FeatureTag;
          } else if k == FeatureLine {
            state := InFeature;
          } else if k != Language && k != EndOfFile {
            error := Some(UnexpectedElement(element, [ExpectKind(Language), ExpectKind(TagLine), ExpectKind(FeatureLine), ExpectKind(EndOfFile)]));
          }
        case FeatureTag =>
          if k == TagLine {
            state := FeatureTag;
          } else if k == FeatureLine {
            state := InFeature;
          } else {
            error := Some(UnexpectedElement(element, [ExpectKind(TagLine), ExpectKind(FeatureLine)]));
          }
        case InFeature =>
          if k == TagLine {
            state := ScenarioTag;
          } else if IsFirstLevel(k) {
            state := InScenario;
          } else if k != Other && k != EndOfFile {
            error := Some(UnexpectedElement(element, [ExpectKind(Other), ExpectKind(TagLine), ExpectFirstLevel, ExpectKind(EndOfFile)]));
          }
        case ScenarioTag =>
          if IsFirstLevel(k) {
            state := InScenario;
          } else if k == ExamplesLine {
            state := InExamples;
          } else if k != TagLine {
            error := Some(UnexpectedElement(element, [ExpectKind(ExamplesLine), ExpectKind(TagLine), ExpectFirstLevel]));
          }
        case InScenario =>
          if k == StepLine {
            state := InStep;
          } else if k == ExamplesLine {
            state := InExamples;
          } else if k != Other && !IsFirstLevel(k) && k != EndOfFile {
            error := Some(UnexpectedElement(element, [ExpectKind(Other), ExpectKind(StepLine), ExpectKind(ExamplesLine), ExpectKind(EndOfFile)]));
          }
        case InStep =>
          if k == TagLine {
            state := ScenarioTag;
          } else if k == DocStringSeparator {
            state := InDocString;
          } else if k == ExamplesLine {
            state := InExamples;
          } else if k == TableRow {
            state := InTable(|element.items|);
          } else if IsFirstLevel(k) {
            state := InScenario;
          } else if k != StepLine && k != EndOfFile {
            error := Some(UnexpectedElement(element, [ExpectKind(StepLine), ExpectKind(TagLine), ExpectKind(DocStringSeparator),
              ExpectKind(ExamplesLine), ExpectKind(TableRow), ExpectFirstLevel, ExpectKind(EndOfFile)]));
          }
        case InDocString =>
          if k == DocStringSeparator {
            state := InStep;
          } else if k != Other {
            error := Some(UnexpectedElement(element, [ExpectKind(DocStringSeparator), ExpectKind(Other)]));
          }
        case InTable(cells) =>
          if k == TableRow {
            if cells != |element.items| {
              error := Some(InconsistentCellCount);
            }
          } else if k == StepLine {
            state := InStep;
          } else if IsFirstLevel(k) {
            state := InScenario;
          } else if k == TagLine {
            state := ScenarioTag;
          } else if k == ExamplesLine {
            state := InExamples;
          } else if k != EndOfFile {
            error := Some(UnexpectedElement(element, [ExpectKind(TableRow), ExpectKind(StepLine), ExpectFirstLevel,
              ExpectKind(TagLine), ExpectKind(ExamplesLine), ExpectKind(EndOfFile)]));
          }
        case InExamples =>
          if k == TableRow {
            state := InTable(|element.items|);
          } else if k == TagLine {
            state := ScenarioTag;
          } else if IsFirstLevel(k) {
            state := InScenario;
          } else if k != Other && k != EndOfFile {
            error := Some(UnexpectedElement(element, [ExpectKind(Other), ExpectKind(TableRow), ExpectKind(TagLine),
              ExpectFirstLevel, ExpectKind(EndOfFile)]));
          }
      }
    }
  }

  // ---------------------------------------------------------------------
  // One transition
  // ---------------------------------------------------------------------

  /** Comments and empty lines never change the state and never fail. */
  lemma TransparentLinesKeepState(s: State, l: Line)
    requires IsTransparent(l.kind)
    ensures Next(s, l) == Success(s)
  {
  }

  /**
   * Before the feature: a language line and the end of input keep the state,
   * a tag line leads to `featureTag`, the feature line to `feature`, and
   * nothing else is accepted.
   */
  lemma BeforeFeatureTransitions(l: Line)
    ensures l.kind == Language || l.kind == EndOfFile ==> Next(BeforeFeature, l) == Success(BeforeFeature)
    ensures l.kind == TagLine ==> Next(BeforeFeature, l) == Success(FeatureTag)
    ensures l.kind == FeatureLine ==> Next(BeforeFeature, l) == Success(InFeature)
    ensures Next(BeforeFeature, l).Success? <==>
      l.kind in {Language, EndOfFile, TagLine, FeatureLine} || IsTransparent(l.kind)
  {
  }

  /** After feature tags only more tags or the feature line may follow. */
  lemma FeatureTagTransitions(l: Line)
    requires !IsTransparent(l.kind)
    ensures Next(FeatureTag, l).Success? <==> l.kind == TagLine || l.kind == FeatureLine
    ensures l.kind == TagLine ==> Next(FeatureTag, l) == Success(FeatureTag)
    ensures l.kind == FeatureLine ==> Next(FeatureTag, l) == Success(InFeature)
  {
  }

  /**
   * As written, a scenario, background or rule line is refused in every
   * state: the cases meant for it match nothing, and it falls to the error.
   */
  lemma AsWrittenRefusesFirstLevel(s: State, l: Line)
    requires IsFirstLevel(l.kind)
    ensures NextAsWritten(s, l).Failure?
  {
  }

  /** The first line of a scenario after the feature line, refused as written. */
  lemma AsWrittenRefusesFirstScenario(l: Line)
    requires l.kind == ScenarioLine
    ensures Run(BeforeFeature, [l.(kind := FeatureLine), l]).Success?
    ensures RunAsWritten(BeforeFeature, [l.(kind := FeatureLine), l]).Failure?
  {
    var f := l.(kind := FeatureLine);
    assert [f, l][1..] == [l];
    assert Next(BeforeFeature, f) == Success(InFeature);
    assert NextAsWritten(BeforeFeature, f) == Success(InFeature);
    assert Next(InFeature, l) == Success(InScenario);
    assert NextAsWritten(InFeature, l).Failure?;
    assert [l][1..] == [];
    assert Run(InFeature, [l]) == Success(InScenario);
  }

  /**
   * With the intended matching, a scenario, background or rule line is
   * accepted exactly after the feature line and outside a doc string, and it
   * always opens a scenario.
   */
  lemma FirstLevelOpensScenario(s: State, l: Line)
    requires IsFirstLevel(l.kind)
    ensures Next(s, l).Success? <==> !InPreamble(s) && s != InDocString
    ensures Next(s, l).Success? ==> Next(s, l).value == InScenario
  {
  }

  /** From a step or an examples line, a table row opens a table with that row's cell count. */
  lemma TableRowOpensTable(s: State, l: Line)
    requires s == InStep || s == InExamples
    requires l.kind == TableRow
    ensures Next(s, l) == Success(InTable(|l.items|))
  {
  }

  /**
   * Inside a table, a row is accepted, and the state kept, exactly when it
   * has the table's cell count; otherwise the error is an inconsistent
   * cell count.
   */
  lemma TableChecksCellCount(n: nat, l: Line)
    requires l.kind == TableRow
    ensures Next(InTable(n), l) == Success(InTable(n)) <==> |l.items| == n
    ensures |l.items| != n ==> Next(InTable(n), l) == Failure(InconsistentCellCount)
  {
  }

  /** Inside a doc string only the closing separator (back to the step) or free text is accepted. */
  lemma DocStringTransitions(l: Line)
    requires !IsTransparent(l.kind)
    ensures Next(InDocString, l).Success? <==> l.kind == DocStringSeparator || l.kind == Other
    ensures l.kind == DocStringSeparator ==> Next(InDocString, l) == Success(InStep)
    ensures l.kind == Other ==> Next(InDocString, l) == Success(InDocString)
  {
  }

  /**
   * The end of input is accepted everywhere except after scenario tags (the
   * one state `isEOFAmmissible` excludes), after feature tags and inside a
   * doc string; where it is accepted it keeps the state.
   */
  lemma EndOfFileAcceptance(s: State, l: Line)
    requires l.kind == EndOfFile
    ensures Next(s, l).Success? <==> s != ScenarioTag && s != FeatureTag && s != InDocString
    ensures Next(s, l).Success? ==> Next(s, l).value == s
  {
  }

  // ---------------------------------------------------------------------
  // Runs of elements
  // ---------------------------------------------------------------------

  /** The automaton fed with a list of elements, stopping at the first error. */
  function Run(s: State, ls: seq<Line>): (r: Result<State, ScannerError>)
    decreases |ls|
  {
    if ls == [] then Success(s)
    else
      match Next(s, ls[0])
      case Failure(e) => Failure(e)
      case Success(t) => Run(t, ls[1..])
  }

  /** `Run` with the transitions as written. */
  function RunAsWritten(s: State, ls: seq<Line>): (r: Result<State, ScannerError>)
    ensures ls == [] ==> r == Success(s)
    decreases |ls|
  {
    if ls == [] then Success(s)
    else
      match NextAsWritten(s, ls[0])
      case Failure(e) => Failure(e)
      case Success(t) => RunAsWritten(t, ls[1..])
  }

  /** The elements that are not comments or empty lines. */
  function Significant(ls: seq<Line>): (r: seq<Line>)
    ensures |r| <= |ls|
    ensures forall i | 0 <= i < |r| :: !IsTransparent(r[i].kind)
  {
    if ls == [] then []
    else if IsTransparent(ls[0].kind) then Significant(ls[1..])
    else [ls[0]] + Significant(ls[1..])
  }

  /** Comments and empty lines can be dropped from any run without changing its outcome. */
  lemma {:induction false} TransparentLinesDoNotMatter(s: State, ls: seq<Line>)
    ensures Run(s, ls) == Run(s, Significant(ls))
    decreases |ls|
  {
    if ls != [] {
      if IsTransparent(ls[0].kind) {
        TransparentLinesDoNotMatter(s, ls[1..]);
      } else {
        var sig := Significant(ls);
        assert sig == [ls[0]] + Significant(ls[1..]);
        assert sig[1..] == Significant(ls[1..]);
        match Next(s, ls[0])
        case Failure(e) =>
        case Success(t) => TransparentLinesDoNotMatter(t, ls[1..]);
      }
    }
  }

  predicate InPreamble(s: State) {
    s == BeforeFeature || s == FeatureTag
  }

  /** Once the feature line has been accepted, the automaton never goes back before it. */
  lemma {:induction false} NoWayBackToPreamble(s: State, ls: seq<Line>)
    requires !InPreamble(s)
    requires Run(s, ls).Success?
    ensures !InPreamble(Run(s, ls).value)
    decreases |ls|
  {
    if ls != [] {
      var t := Next(s, ls[0]).value;
      assert !InPreamble(t);
      NoWayBackToPreamble(t, ls[1..]);
    }
  }

  /**
   * A table accepts a run of rows exactly when every row has the table's
   * cell count, and it then stays the same table.
   */
  lemma {:induction false} TableRowsAgree(n: nat, rows: seq<Line>)
    requires forall i | 0 <= i < |rows| :: rows[i].kind == TableRow
    ensures Run(InTable(n), rows).Success? <==> forall i | 0 <= i < |rows| :: |rows[i].items| == n
    ensures Run(InTable(n), rows).Success? ==> Run(InTable(n), rows).value == InTable(n)
    decreases |rows|
  {
    if rows != [] {
      TableRowsAgree(n, rows[1..]);
      if |rows[0].items| == n {
        assert Next(InTable(n), rows[0]) == Success(InTable(n));
        assert forall i | 1 <= i < |rows| :: rows[1..][i - 1] == rows[i];
      } else {
        assert Run(InTable(n), rows).Failure?;
      }
    }
  }
}
