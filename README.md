# chart-creator: the input-to-series core, in Dafny

chart-creator is a browser page. The user pastes or uploads JSON or CSV, and the page draws a bar chart with Chart.js. All its logic is in `app.js`. This project models the step that turns the text into the chart's two arrays, `labels` and `dataPoints`, and proves what that step does.

- **Format sniff** (`sniff.dfy`, module `Sniff`). The click handler trims the text (`String.prototype.trim`). `isJson` then takes it for JSON exactly when it starts with `{` or `[`. The model writes `trim` out over the ECMAScript WhiteSpace and LineTerminator code points. It proves that the sniff looks at the first character of the input that is not white space, so blank input goes down the CSV path.
- **Shared filter-map** (`series.dfy`, module `Series`). Both extractors start with empty `labels` and `dataPoints` and `push` onto them for every row that passes a check. `Kept(rows, entry)` is that filter-map, built from the back in the order of the pushes. The ghost `KeptIndices` gives the positions of the rows it keeps. `KeptSpec` proves three things about the result: it has exactly one entry per accepted row, each entry comes from its own row, and the entries keep input order.
- **JSON extractor** (`json_extract.dfy`, modules `Json` and `JsonExtract`). `parseJsonData` is a method with a loop, proved equal to the function `JsonOutcome`. It rejects anything but an array. It keeps an element when both `label` and `value` are defined, so `null`, `0` and `""` values count as defined. It fails when nothing was kept. Two things make it throw a TypeError: reading `item.label` of a `null` element, and `parseFloat` of a kept element's `value` that has no string form. An object with its own `toString` member has none, and neither does an array containing such an object. The handler's `catch` shows a throw with the same message as a JSON syntax error. The model returns the distinct error `TypeErrorThrown`.
- **CSV extractor** (`csv_extract.dfy`, module `CsvExtract`). `parseCsvData` is a method with one loop per mode, proved equal to `CsvOutcome`. The header flag picks the mode; the tokenizer, called with the same flag, returns string maps exactly when it is set. Any tokenizer error aborts it.
  - Header mode skips a row whose `label` or `value` is missing or `""` (JavaScript falsiness on strings).
  - No-header mode skips a row with fewer than two cells. Otherwise the label is cell 0 and the value is cell 1, and later cells have no effect.
- **Click handler** (`render.dfy`, module `Render`). `OnRenderClick` trims, sniffs and dispatches to the two extractors.

The foreign calls are parameters: `JSON.parse`, the PapaParse tokenizer and `parseFloat`. `JSON.parse` yields `None` where it throws. The tokenizer yields a `Tokenized` value: rows as string maps when called with `header: true`, rows as string sequences otherwise, plus its error count. `parseFloat` maps to a `Number` datatype (a finite value, either infinity, or NaN), and the model never reasons about its value.

`app.js` reads only the fixed keys `label`/`value` (or cells 0/1) and builds a single dataset.

## Model

| member | source | states |
|---|---|---|
| `Sniff.TrimStart` | app.js:45 | the result is a suffix of the input; everything removed is white space, and the result is empty or starts with a non-space character |
| `Sniff.TrimEnd` | app.js:45 | the result is a prefix of the input; everything removed is white space, and the result is empty or ends with a non-space character; a non-space first character is never removed |
| `Sniff.Trim` | app.js:45 | (no contract; its body) leading white space is removed, then trailing white space |
| `Sniff.TrimKeepsFirstNonSpace` | app.js:45 | with `k` the length of the input's leading white-space run, the trimmed text is empty exactly when `k` is the whole input, and otherwise starts with input character `k`, which is not white space |
| `Sniff.IsJson` | app.js:66-68 | (no contract; its body) the text is non-empty and its first character is `{` or `[` |
| `Sniff.SniffSeesFirstNonSpace` | app.js:66-68 | `isJson(trim(s))` holds exactly when the first non-white-space character of `s` exists and is `{` or `[`; blank input is never taken for JSON |
| `Series.Kept` | app.js:89-97 | (no contract; its body) the entries of the accepted rows, one per accepted row, in input order, as the push loops build them (also app.js:133-151) |
| `Series.Labels` | app.js:95 | the labels array has one element per kept entry, and element k is entry k's label |
| `Series.DataPoints` | app.js:96 | the data array has one element per kept entry, and element k is `parseFloat` of entry k's raw value |
| `Series.Finish` | app.js:99-104 | (no contract; its body) no kept entry gives `NoValidRows`; otherwise the chart receives their labels and coerced values (also app.js:154-159) |
| `Series.KeptFromIndices` | app.js:89-97 | one recorded index per kept entry, no more than there are rows; entry k is what the row at index k yields |
| `Series.KeptIndicesIncrease` | app.js:89-97 | the recorded indices are in range and strictly increasing, so entries keep input order |
| `Series.KeptIndicesExact` | app.js:89-97 | a row's index is recorded iff its check accepts it |
| `Series.KeptSpec` | app.js:89-97 | the filter-map keeps exactly the accepted rows: as many entries as kept indices, no more than there are rows, indices strictly increasing, index j is kept iff row j is accepted, and entry k is what row `idx[k]` yields |
| `Series.KeptEmpty` | app.js:99-102 | nothing is kept iff no row is accepted |
| `Series.KeptCongruent` | app.js:133-151 | the outcome depends only on what the per-row check extracts: rows that extract the same entries position by position give the same kept entries |
| `Json.Property` | app.js:91 | (no contract; its body) reading `label`/`value` of a non-`null` value yields an object's own member if present, and `undefined` for every other value |
| `Json.ToStringThrows` | app.js:96 | (no contract; its body) the string conversion inside `parseFloat` throws for an object with its own `toString` member, or an array holding such a value anywhere inside |
| `JsonExtract.Throws` | app.js:91-96 | (no contract; its body) the element aborts the `forEach`: it is `null`, or it has both properties and its `value` has no string form |
| `JsonExtract.JsonEntry` | app.js:91-96 | an element contributes an entry iff it is an object with `label` and `value` present, and the entry is that `label` with that raw `value` |
| `JsonExtract.JsonOutcome` | app.js:80-102 | (no contract; its body) not an array gives `NotAnArray`; a throwing element gives `TypeErrorThrown`; otherwise the series of the kept elements, or `NoValidRows` when none is kept |
| `JsonExtract.ParseJsonData` | app.js:80-102 | the loop that pushes onto `labels`/`dataPoints` computes exactly `JsonOutcome`: not an array, a thrown TypeError, no element with both properties, or the series of kept elements |
| `JsonExtract.JsonErrors` | app.js:80-102 | `NotAnArray` iff the value is not an array; `TypeErrorThrown` iff some element is `null` or has both properties and a `value` with no string form; `NoValidRows` iff neither holds and no element has both `label` and `value`; there are no other failures |
| `JsonExtract.JsonChartRows` | app.js:89-97 | on success, no element throws, and `labels` and `dataPoints` have equal, non-zero length ≤ the array length; element j is kept iff it is an object with `label` and `value` present; kept elements appear in array order, and `labels[k]`/`dataPoints[k]` are the `label` and the coerced `value` of the same element |
| `JsonExtract.JsonEdgeCases` | app.js:91-96 | a `null` label with value `0` is kept; a `null` element, or a `value` with its own `toString` member, aborts the whole array; an array whose elements lack a property yields no chart |
| `CsvExtract.Truthy` | app.js:135 | (no contract; its body) `row.label` / `row.value` is truthy: the key is present and its value is not the empty string |
| `CsvExtract.RecordEntry` | app.js:135-140 | (no contract; its body) a header-mode row contributes its `label` and `value` iff both are present and non-empty |
| `CsvExtract.CellsEntry` | app.js:145-150 | (no contract; its body) a no-header row contributes cells 0 and 1 iff it has at least two cells |
| `CsvExtract.CsvOutcome` | app.js:121-157 | (no contract; its body) any tokenizer error gives `CsvParseError`; otherwise the series of the rows its mode's check accepts, or `NoValidRows` when none is accepted |
| `CsvExtract.ParseCsvData` | app.js:121-157 | the header flag selects the mode, and both mode loops compute exactly `CsvOutcome`: tokenizer errors abort, otherwise the series of accepted rows or `NoValidRows` |
| `CsvExtract.CsvErrors` | app.js:121-157 | `CsvParseError` iff the tokenizer reported an error; `NoValidRows` iff there was none and no row passes the check of its mode; there are no other failures |
| `CsvExtract.RecordsChartRows` | app.js:133-141 | header mode, on success: equal non-zero lengths ≤ row count; row j is kept iff its `label` and `value` are present and non-empty; order kept; label and value of point k come from the same row |
| `CsvExtract.CellsChartRows` | app.js:144-151 | no-header mode, on success: equal non-zero lengths ≤ row count; row j is kept iff it has at least two cells; order kept; point k's label is cell 0 and its value is `parseFloat` of cell 1 of the same row |
| `CsvExtract.CellsIgnoreExtraCells` | app.js:145-150 | in no-header mode, cells beyond the second and the contents of too-short rows do not affect the outcome |
| `CsvExtract.CsvEdgeCases` | app.js:133-150 | an empty `label` skips a header-mode row; a one-cell row is skipped and a third cell ignored; any tokenizer error aborts even with valid rows |
| `Render.OnRenderClick` | app.js:44-61 | given a tokenizer that returns maps exactly when asked for a header: the JSON path is taken iff the input's first non-white-space character is `{` or `[`; on it, a `JSON.parse` failure gives `InvalidJson` and otherwise the outcome is `JsonOutcome`; on the CSV path the outcome is `CsvOutcome` of the tokenizer run on the trimmed text with the header flag |

## Left out

- DOM lookups, event listeners, `alert` and `console.warn`/`console.error` (app.js:1-13, 44, 200) are UI and logging. Each failure is an error value instead. The two "no valid data" alerts (app.js:100, app.js:155) become the same error, `NoValidRows`.
- File upload through `FileReader`, and the `.json` name check that only pretty-prints into the text area (app.js:15-39), are browser I/O.
- `JSON.parse` (app.js:51) and the PapaParse tokenizer (app.js:114-119) are foreign library calls. The model takes them as given functions. It assumes that the tokenizer returns string maps exactly when asked for a header. The tokenizer's own behaviour is not modelled: empty-line skipping, the delimiter, duplicate-header renaming, and extra fields under `__parsed_extra`.
- `parseFloat` (app.js:96, 140, 150) is floating point. It is a parameter, and nothing is proved about the numbers it returns.
- The string conversion inside `parseFloat` (app.js:96) is modelled only for whether it throws (`Json.ToStringThrows`). The text a JSON value converts to is left to the `jsonFloat` parameter, which is only applied to values that convert.
- `createOrUpdateChart`, the global `myChart` being destroyed and replaced, and the PNG download (app.js:165-209) are thin wrappers over Chart.js and the browser. A successful extraction ends with the series that would be handed to the chart.
- JSON property reads are modelled only for JSON values: an object's own members, and no `label`/`value` property on any other value. Prototype-chain lookups cannot reach `label` or `value` on values that `JSON.parse` produces.
