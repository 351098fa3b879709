/**
 * The older models the interpreter builds: a data table of plain strings
 * and an examples table with its column titles.
 */
module LegacyModels {
  import opened Common

  /** The older `DataTableInitializationException`: every failure is `dataTableWithoutValues`. */
  datatype DataTableError = DataTableWithoutValues

  datatype DataTable = DataTable(values: seq<seq<string>>)

  /** Every row has as many values as the first. */
  predicate SameLength(values: seq<seq<string>>)
    requires values != []
  {
    forall i | 0 <= i < |values| :: |values[i]| == |values[0]|
  }

  /** Rows `from` to the last all have as many values as the first row. */
  function LaterRowsAgree(values: seq<seq<string>>, from: nat): (r: bool)
    requires values != [] && 1 <= from <= |values|
    ensures r <==> forall i | from <= i < |values| :: |values[i]| == |values[0]|
    decreases |values| - from
  {
    from == |values| || (|values[from]| == |values[0]| && LaterRowsAgree(values, from + 1))
  }

  /**
   * The older `DataTable.init(values:)`: no rows is refused; a single row
   * is accepted as given; otherwise every later row must have as many
   * values as the first, and any that does not is refused with the same
   * error. A table that passes keeps its values unchanged.
   */
  function NewDataTable(values: seq<seq<string>>): (r: Result<DataTable, DataTableError>)
    ensures values == [] ==> r == Failure(DataTableWithoutValues)
    ensures |values| == 1 ==> r == Success(DataTable(values))
    ensures r.Success? <==> values != [] && SameLength(values)
    ensures r.Success? ==> r.value.values == values
  {
    if values == [] then Failure(DataTableWithoutValues)
    else if |values| < 2 then Success(DataTable(values))
    else if LaterRowsAgree(values, 1) then Success(DataTable(values))
    else Failure(DataTableWithoutValues)
  }

  /** The older `ExamplesTableInitializationException`. */
  datatype ExamplesError = EmptyTitle | EmptyTableHeaders | UnmatchedValuesCountWithColumns

  datatype ExamplesTable = ExamplesTable(title: string, columns: seq<string>, dataTable: DataTable)

  /**
   * The number of values in the first row, if any: `values.first?.count`,
   * which is nil for a table without rows and then never equals a count.
   */
  function FirstRowCount(t: DataTable): (r: Option<nat>)
    ensures r.None? <==> t.values == []
    ensures r.Some? ==> r.value == |t.values[0]|
  {
    if t.values == [] then None else Some(|t.values[0]|)
  }

  /**
   * The older `ExamplesTable.init`: a title that is blank once trimmed, no
   * columns, and a column count other than the first row's are refused, in
   * that order; a table that passes keeps its fields unchanged.
   */
  function NewExamplesTable(title: string, columns: seq<string>, dataTable: DataTable): (r: Result<ExamplesTable, ExamplesError>)
    ensures AllWhitespace(title) ==> r == Failure(EmptyTitle)
    ensures !AllWhitespace(title) && columns == [] ==> r == Failure(EmptyTableHeaders)
    ensures !AllWhitespace(title) && columns != [] && (dataTable.values == [] || |columns| != |dataTable.values[0]|) ==>
      r == Failure(UnmatchedValuesCountWithColumns)
    ensures r.Success? <==> !AllWhitespace(title) && columns != [] && dataTable.values != [] && |columns| == |dataTable.values[0]|
    ensures r.Success? ==> r.value == ExamplesTable(title, columns, dataTable)
  {
    if Trim(title) == "" then Failure(EmptyTitle)
    else if columns == [] then Failure(EmptyTableHeaders)
    else if FirstRowCount(dataTable) != Some(|columns|) then Failure(UnmatchedValuesCountWithColumns)
    else Success(ExamplesTable(title, columns, dataTable))
  }

  /**
   * An examples table built over a data table the constructor accepted has
   * exactly as many values in every row as it has columns.
   */
  lemma ExamplesRowsMatchColumns(title: string, columns: seq<string>, values: seq<seq<string>>)
    requires NewDataTable(values).Success?
    requires NewExamplesTable(title, columns, NewDataTable(values).value).Success?
    ensures forall i | 0 <= i < |values| :: |values[i]| == |columns|
  {
    assert SameLength(values);
  }
}
