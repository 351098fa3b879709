/**
 * The validating constructors of the syntax tree: data tables with their
 * header and body, scenarios, steps, and the feature validator. Each
 * constructor either returns the value with its fields stored unchanged or
 * reports the first check that failed, in the order the checks are made.
 */
module Ast {
  import opened Common
  import Keywords

  /** `ASTNode`: an element with the location it was found at. */
  datatype Node<T> = Node(element: T, location: Location)

  /** `Tag`: the tag's name. */
  datatype Tag = Tag(tag: string)

  // ---------------------------------------------------------------------
  // DataTable
  // ---------------------------------------------------------------------

  /** `DataTable.Cell`. */
  datatype Cell = EmptyCell | Value(text: string)

  /** `stringValue`: the text of a cell; an empty cell reads as "". */
  function StringValue(c: Cell): (r: string)
    ensures c.Value? ==> r == c.text
    ensures r == "" <==> c == EmptyCell || c == Value("")
  {
    match c
    case EmptyCell => ""
    case Value(v) => v
  }

  datatype Row = Row(cells: seq<Node<Cell>>)

  datatype DataTable = DataTable(rows: seq<Node<Row>>)

  /** `DataTableInitializationException`. */
  datatype DataTableError = DataTableWithoutValues | UnmatchingCellsCount(row: nat)

  function Width(r: Node<Row>): nat {
    |r.element.cells|
  }

  /** Every row has as many cells as the first. */
  predicate Rectangular(rows: seq<Node<Row>>) {
    forall i | 0 <= i < |rows| :: Width(rows[i]) == Width(rows[0])
  }

  /** The first row, from `from` on, whose cell count differs from row 0's. */
  function FirstMismatch(rows: seq<Node<Row>>, from: nat): (r: Option<nat>)
    requires rows != [] && from <= |rows|
    ensures r.None? <==> forall j | from <= j < |rows| :: Width(rows[j]) == Width(rows[0])
    ensures r.Some? ==> (
      && from <= r.value < |rows|
      && Width(rows[r.value]) != Width(rows[0])
      && forall j | from <= j < r.value :: Width(rows[j]) == Width(rows[0]))
    decreases |rows| - from
  {
    if from == |rows| then None
    else if Width(rows[from]) != Width(rows[0]) then Some(from)
    else FirstMismatch(rows, from + 1)
  }

  /** What a constructor does besides returning a value: throw one of its errors, or trap at run time. */
  datatype Outcome<T, E> = Returned(value: T) | Threw(error: E) | Trapped

  /**
   * `DataTable.init(rows:)` as written: the check runs over `0...(count-1)`,
   * a range Swift refuses to form when there are no rows.
   */
  function NewDataTableAsWritten(rows: seq<Node<Row>>): (r: Outcome<DataTable, DataTableError>)
    ensures rows == [] <==> r.Trapped?
  {
    if rows == [] then Trapped
    else
      match FirstMismatch(rows, 0)
      case Some(i) => Threw(UnmatchingCellsCount(i))
      case None => Returned(DataTable(rows))
  }

  /**
   * `DataTable.init(rows:)` with the empty table rejected as
   * `dataTableWithoutValues`, as the data table validator does: otherwise
   * the first row whose cell count differs from row 0's is reported, and a
   * table that passes keeps its rows unchanged.
   */
  function NewDataTable(rows: seq<Node<Row>>): (r: Result<DataTable, DataTableError>)
    ensures rows == [] ==> r == Failure(DataTableWithoutValues)
    ensures r.Success? <==> rows != [] && Rectangular(rows)
    ensures r.Success? ==> r.value.rows == rows
    ensures r.Failure? && rows != [] ==> (
      && r.error.UnmatchingCellsCount?
      && 0 < r.error.row < |rows|
      && Width(rows[r.error.row]) != Width(rows[0])
      && forall j | 0 <= j < r.error.row :: Width(rows[j]) == Width(rows[0]))
  {
    if rows == [] then Failure(DataTableWithoutValues)
    else
      match FirstMismatch(rows, 0)
      case Some(i) => Failure(UnmatchingCellsCount(i))
      case None => Success(DataTable(rows))
  }

  /** On a non-empty table the constructor as written and the corrected one agree. */
  lemma DataTableAgreesOnRows(rows: seq<Node<Row>>)
    requires rows != []
    ensures NewDataTableAsWritten(rows).Returned? <==> NewDataTable(rows).Success?
    ensures NewDataTableAsWritten(rows).Returned? ==> NewDataTableAsWritten(rows).value == NewDataTable(rows).value
    ensures NewDataTableAsWritten(rows).Threw? ==> NewDataTableAsWritten(rows).error == NewDataTable(rows).error
  {
  }

  /** With no rows the constructor as written traps instead of throwing. */
  lemma EmptyDataTableTraps()
    ensures NewDataTableAsWritten([]) == Trapped
    ensures NewDataTable([]) == Failure(DataTableWithoutValues)
  {
  }

  /** `header`: row 0. */
  function Header(t: DataTable): (r: Node<Row>)
    requires t.rows != []
    ensures r in t.rows && Width(r) == Width(t.rows[0])
  {
    t.rows[0]
  }

  /**
   * `body` as written: no rows for a table of at most one row, otherwise
   * the slice `rows[1...count]`, whose closed upper bound lies one past the
   * last row, so the access traps.
   */
  function BodyAsWritten(t: DataTable): (r: Option<seq<Node<Row>>>)
    ensures r.None? <==> |t.rows| > 1
    ensures r.Some? ==> r.value == []
  {
    if |t.rows| <= 1 then Some([])
    else None
  }

  /** `body` with the half-open slice `rows[1..<count]`: every row after the header. */
  function Body(t: DataTable): (r: seq<Node<Row>>)
    ensures |t.rows| <= 1 ==> r == []
    ensures |t.rows| > 1 ==> |r| == |t.rows| - 1 && forall i | 0 <= i < |r| :: r[i] == t.rows[i + 1]
  {
    if |t.rows| <= 1 then [] else t.rows[1..]
  }

  /** The header followed by the body is the whole table. */
  lemma HeaderThenBody(t: DataTable)
    requires t.rows != []
    ensures [Header(t)] + Body(t) == t.rows
  {
    if |t.rows| > 1 {
      assert t.rows == [t.rows[0]] + t.rows[1..];
    }
  }

  /** In a table the constructor accepted, every body row has as many cells as the header. */
  lemma BodyMatchesHeader(rows: seq<Node<Row>>)
    requires NewDataTable(rows).Success?
    ensures var t := NewDataTable(rows).value;
      forall i | 0 <= i < |Body(t)| :: Width(Body(t)[i]) == Width(Header(t))
  {
    var t := NewDataTable(rows).value;
    forall i | 0 <= i < |Body(t)| ensures Width(Body(t)[i]) == Width(Header(t)) {
      assert Body(t)[i] == rows[i + 1];
    }
  }

  // ---------------------------------------------------------------------
  // ExamplesTable, DocString
  // ---------------------------------------------------------------------

  /** The syntax tree's `ExamplesTable`, a plain record. */
  datatype ExamplesTable = ExamplesTable(
    keyword: string, title: Option<string>, description: Option<string>,
    tags: seq<Node<Tag>>, dataTable: Option<Node<DataTable>>)

  /** `DocString`, a plain record. */
  datatype DocString = DocString(mark: Option<string>, content: Option<string>, delimiter: Keywords.DocFence)

  // ---------------------------------------------------------------------
  // Scenario
  // ---------------------------------------------------------------------

  /** `ScenarioInitializationException`; `emptySteps` is declared but never thrown. */
  datatype ScenarioError = EmptyTitle | EmptyDescription | EmptySteps | NoStepsFound

  /** `Outline`: a plain scenario, or an outline with its examples. */
  datatype Outline<E> = NotOutline | OutlineOf(examples: E)

  /**
   * `Scenario`, over the types of its tags, steps and examples: the syntax
   * tree's scenario uses nodes of them, the older one the bare values.
   */
  datatype Scenario<T, S, E> = Scenario(
    tags: seq<T>, title: string, description: Option<string>, steps: seq<S>, outline: Outline<E>)

  /**
   * `Scenario.init`: the title must not be empty, a description that is
   * present must not be empty, and there must be steps, checked in that
   * order; a scenario that passes keeps its fields unchanged.
   */
  function NewScenario<T, S, E>(
    tags: seq<T>, title: string, description: Option<string>, steps: seq<S>, outline: Outline<E>
  ): (r: Result<Scenario<T, S, E>, ScenarioError>)
    ensures r.Success? <==> title != "" && description != Some("") && steps != []
    ensures r.Success? ==> r.value == Scenario(tags, title, description, steps, outline)
    ensures title == "" ==> r == Failure(EmptyTitle)
    ensures title != "" && description == Some("") ==> r == Failure(EmptyDescription)
    ensures title != "" && description != Some("") && steps == [] ==> r == Failure(NoStepsFound)
  {
    if title == "" then Failure(EmptyTitle)
    else if description.Some? && description.value == "" then Failure(EmptyDescription)
    else if steps == [] then Failure(NoStepsFound)
    else Success(Scenario(tags, title, description, steps, outline))
  }

  /** The scenario constructor never reports `emptySteps`: missing steps are `noStepsFound`. */
  lemma EmptyStepsNeverThrown<T, S, E>(
    tags: seq<T>, title: string, description: Option<string>, steps: seq<S>, outline: Outline<E>)
    ensures NewScenario(tags, title, description, steps, outline) != Failure(EmptySteps)
  {
  }

  // ---------------------------------------------------------------------
  // Step
  // ---------------------------------------------------------------------

  /** `StepInitializationException`; `parametersOutOfBounds` is declared but never thrown. */
  datatype StepError = EmptyStepText | ParametersOutOfBounds

  datatype Step = Step(
    keyword: Keywords.StepKeyword, text: string,
    docString: Option<Node<DocString>>, dataTable: Option<Node<DataTable>>)

  /**
   * `Step.init`: text that is empty once trimmed of whitespace is refused;
   * nothing else is checked, and the doc string and data table are stored
   * as given.
   */
  function NewStep(
    keyword: Keywords.StepKeyword, text: string,
    docString: Option<Node<DocString>>, dataTable: Option<Node<DataTable>>
  ): (r: Result<Step, StepError>)
    ensures r.Failure? <==> AllWhitespace(text)
    ensures r.Failure? ==> r.error == EmptyStepText
    ensures r.Success? ==> r.value == Step(keyword, text, docString, dataTable)
  {
    if Trim(text) == "" then Failure(EmptyStepText)
    else Success(Step(keyword, text, docString, dataTable))
  }

  // ---------------------------------------------------------------------
  // FeatureValidator
  // ---------------------------------------------------------------------

  /** `FeatureInitializationException`. */
  datatype FeatureError = FeatureEmptyTitle | FeatureEmptyScenarios | FeatureEmptyDescription

  /** The syntax tree's `Feature`, over the types of its scenarios and rules; the language is always English. */
  datatype Feature<S, R> = Feature(
    tags: seq<Node<Tag>>, title: Option<string>, description: Option<string>,
    scenarios: seq<S>, rules: seq<R>)

  /**
   * `FeatureValidator.validate(object:)`: a title or description that is
   * present must not be empty (an absent one passes), and there must be
   * scenarios, checked in that order; a feature that passes validates as
   * true.
   */
  function Validate<S, R>(f: Feature<S, R>): (r: Result<bool, FeatureError>)
    ensures r.Success? <==> f.title != Some("") && f.description != Some("") && f.scenarios != []
    ensures r.Success? ==> r.value
    ensures f.title == Some("") ==> r == Failure(FeatureEmptyTitle)
    ensures f.title != Some("") && f.description == Some("") ==> r == Failure(FeatureEmptyDescription)
    ensures f.title != Some("") && f.description != Some("") && f.scenarios == [] ==> r == Failure(FeatureEmptyScenarios)
  {
    if f.title.Some? && f.title.value == "" then Failure(FeatureEmptyTitle)
    else if f.description.Some? && f.description.value == "" then Failure(FeatureEmptyDescription)
    else if f.scenarios == [] then Failure(FeatureEmptyScenarios)
    else Success(true)
  }
}
