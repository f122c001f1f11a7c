/**
 * `parseCsvData` (app.js:121-157), from the point where the CSV tokenizer
 * has returned. The tokenizer is called with `header: hasHeader`, so its
 * rows are string maps keyed by the header cells when the box is ticked
 * and string sequences otherwise; the model takes that result as given.
 */
module CsvExtract {
  import opened Series

  /** The rows the tokenizer returns, in the shape the header flag selects. */
  datatype CsvRows =
    | Records(records: seq<map<string, string>>)  // header: true
    | Cells(rows: seq<seq<string>>)               // header: false

  /** The tokenizer's result: its rows and how many errors it reported. */
  datatype Tokenized = Tokenized(data: CsvRows, errorCount: nat)

  /** `row[key]` is truthy in JavaScript: present and not the empty string. */
  predicate Truthy(row: map<string, string>, key: string)
  {
    key in row && row[key] != ""
  }

  /** What one header-mode row contributes, if anything. */
  function RecordEntry(row: map<string, string>): Option<Entry<string, string>>
  {
    if !Truthy(row, "label") || !Truthy(row, "value") then None
    else Some(Entry(row["label"], row["value"]))
  }

  /** What one no-header row contributes, if anything. */
  function CellsEntry(row: seq<string>): Option<Entry<string, string>>
  {
    if |row| < 2 then None else Some(Entry(row[0], row[1]))
  }

  /** The outcome `parseCsvData` reaches on a tokenizer result. */
  function CsvOutcome(parsed: Tokenized, parseFloat: string -> Number): Outcome<string>
  {
    if parsed.errorCount > 0 then Failed(CsvParseError)
    else
      match parsed.data
      case Records(records) => Finish(Kept(records, RecordEntry), parseFloat)
      case Cells(rows) => Finish(Kept(rows, CellsEntry), parseFloat)
  }

  /** The extraction loops of `parseCsvData`: abort on any tokenizer
      error; otherwise, in the mode the header flag selects (the tokenizer,
      called with that flag, returns maps exactly when it is set), walk the
      rows in order, `continue` past a row that
      fails the check of its mode and push the label and the coerced value
      of every other row; give up when either array is still empty. */
  method ParseCsvData(hasHeader: bool, parsed: Tokenized, parseFloat: string -> Number) returns (out: Outcome<string>)
    requires parsed.data.Records? <==> hasHeader
    ensures out == CsvOutcome(parsed, parseFloat)
  {
    if parsed.errorCount > 0 {
      return Failed(CsvParseError);
    }
    var labels: seq<string> := [];
    var dataPoints: seq<Number> := [];
    if hasHeader {
      var records := parsed.data.records;
      var i := 0;
      while i < |records|
        invariant 0 <= i <= |records|
        invariant labels == Labels(Kept(records[..i], RecordEntry))
        invariant dataPoints == DataPoints(Kept(records[..i], RecordEntry), parseFloat)
      {
        var row := records[i];
        SeriesStep(records, i, RecordEntry, parseFloat, labels, dataPoints);
        if !Truthy(row, "label") || !Truthy(row, "value") {
          i := i + 1;
          continue;
        }
        labels := labels + [row["label"]];
        dataPoints := dataPoints + [parseFloat(row["value"])];
        i := i + 1;
      }
      assert records[..i] == records;
    } else {
      var rows := parsed.data.rows;
      var i := 0;
      while i < |rows|
        invariant 0 <= i <= |rows|
        invariant labels == Labels(Kept(rows[..i], CellsEntry))
        invariant dataPoints == DataPoints(Kept(rows[..i], CellsEntry), parseFloat)
      {
        var row := rows[i];
        SeriesStep(rows, i, CellsEntry, parseFloat, labels, dataPoints);
        if |row| < 2 {
          i := i + 1;
          continue;
        }
        labels := labels + [row[0]];
        dataPoints := dataPoints + [parseFloat(row[1])];
        i := i + 1;
      }
      assert rows[..i] == rows;
    }
    if |labels| == 0 || |dataPoints| == 0 {
      return Failed(NoValidRows);
    }
    return Chart(ChartSeries(labels, dataPoints));
  }

  /** Whether any row of the tokenizer result passes the check of its mode. */
  predicate SomeRowAccepted(data: CsvRows)
  {
    match data
    case Records(records) => exists j :: 0 <= j < |records| && Truthy(records[j], "label") && Truthy(records[j], "value")
    case Cells(rows) => exists j :: 0 <= j < |rows| && |rows[j]| >= 2
  }

  /** The error outcomes of the CSV path, each with its exact cause:
      tokenizer errors win over everything, and otherwise the only failure
      is that no row passed its check. */
  lemma CsvErrors(parsed: Tokenized, parseFloat: string -> Number)
    ensures CsvOutcome(parsed, parseFloat) == Failed(CsvParseError) <==> parsed.errorCount > 0
    ensures CsvOutcome(parsed, parseFloat) == Failed(NoValidRows) <==>
      parsed.errorCount == 0 && !SomeRowAccepted(parsed.data)
    ensures CsvOutcome(parsed, parseFloat).Failed? ==>
      CsvOutcome(parsed, parseFloat).error in {CsvParseError, NoValidRows}
  {
    match parsed.data
    case Records(records) =>
      KeptEmpty(records, RecordEntry);
    case Cells(rows) =>
      KeptEmpty(rows, CellsEntry);
  }

  /** A chart drawn in header mode holds one point per row whose `label`
      and `value` are both non-empty, in row order, each label and value
      taken from that same row. */
  lemma RecordsChartRows(records: seq<map<string, string>>, parseFloat: string -> Number)
    requires CsvOutcome(Tokenized(Records(records), 0), parseFloat).Chart?
    ensures var s, idx := CsvOutcome(Tokenized(Records(records), 0), parseFloat).series, KeptIndices(records, RecordEntry);
      && 0 < |s.labels| == |s.dataPoints| == |idx| <= |records|
      && (forall j :: 0 <= j < |records| ==>
            (j in idx <==> Truthy(records[j], "label") && Truthy(records[j], "value")))
      && (forall k, l :: 0 <= k < l < |idx| ==> idx[k] < idx[l])
      && (forall k :: 0 <= k < |idx| ==>
            && idx[k] < |records| && Truthy(records[idx[k]], "label") && Truthy(records[idx[k]], "value")
            && s.labels[k] == records[idx[k]]["label"]
            && s.dataPoints[k] == parseFloat(records[idx[k]]["value"]))
  {
    KeptSpec(records, RecordEntry);
  }

  /** A chart drawn in no-header mode holds one point per row of at least
      two cells, in row order: the label is the row's first cell and the
      value the coercion of its second. */
  lemma CellsChartRows(rows: seq<seq<string>>, parseFloat: string -> Number)
    requires CsvOutcome(Tokenized(Cells(rows), 0), parseFloat).Chart?
    ensures var s, idx := CsvOutcome(Tokenized(Cells(rows), 0), parseFloat).series, KeptIndices(rows, CellsEntry);
      && 0 < |s.labels| == |s.dataPoints| == |idx| <= |rows|
      && (forall j :: 0 <= j < |rows| ==> (j in idx <==> |rows[j]| >= 2))
      && (forall k, l :: 0 <= k < l < |idx| ==> idx[k] < idx[l])
      && (forall k :: 0 <= k < |idx| ==>
            && idx[k] < |rows| && |rows[idx[k]]| >= 2
            && s.labels[k] == rows[idx[k]][0]
            && s.dataPoints[k] == parseFloat(rows[idx[k]][1]))
  {
    KeptSpec(rows, CellsEntry);
  }

  /** Two rows the no-header check cannot tell apart: both too short, or
      both at least two cells long with the same first two cells. */
  predicate SameFirstTwoCells(a: seq<string>, b: seq<string>)
  {
    (|a| < 2 && |b| < 2) || (|a| >= 2 && |b| >= 2 && a[0] == b[0] && a[1] == b[1])
  }

  /** In no-header mode, cells beyond the second and the contents of rows
      that are too short have no effect on the outcome. */
  lemma CellsIgnoreExtraCells(rows: seq<seq<string>>, rows': seq<seq<string>>, errorCount: nat, parseFloat: string -> Number)
    requires |rows| == |rows'|
    requires forall j :: 0 <= j < |rows| ==> SameFirstTwoCells(rows[j], rows'[j])
    ensures CsvOutcome(Tokenized(Cells(rows), errorCount), parseFloat) ==
            CsvOutcome(Tokenized(Cells(rows'), errorCount), parseFloat)
  {
    KeptCongruent(rows, CellsEntry, rows', CellsEntry);
  }

  /** Worked cases: a header-mode row with an empty `label` is skipped,
      and in no-header mode a one-cell row is skipped while a third cell
      is ignored. */
  lemma CsvEdgeCases(parseFloat: string -> Number)
    ensures CsvOutcome(Tokenized(Records([map["label" := "", "value" := "1"]]), 0), parseFloat) == Failed(NoValidRows)
    ensures CsvOutcome(Tokenized(Cells([["a"], ["b", "20", "x"]]), 0), parseFloat) ==
      Chart(ChartSeries(["b"], [parseFloat("20")]))
    ensures CsvOutcome(Tokenized(Cells([["b", "20"]]), 1), parseFloat) == Failed(CsvParseError)
  {
    assert [map["label" := "", "value" := "1"]][..0] == [];
    var r0: seq<string> := ["a"];
    var r1: seq<string> := ["b", "20", "x"];
    assert [r0, r1][..1] == [r0] && [r0][..0] == [];
    assert CellsEntry(r0) == None && Kept([r0], CellsEntry) == [];
    assert CellsEntry(r1) == Some(Entry("b", "20"));
    assert Kept([r0, r1], CellsEntry) == [Entry("b", "20")];
  }
}
