/**
 * The "render chart" click handler (app.js:44-61): trim the text area,
 * sniff the format, and hand the text to `JSON.parse` and `parseJsonData`
 * or to the CSV tokenizer and `parseCsvData`. The foreign calls are given
 * as functions; the chart library call that follows a successful
 * extraction is not part of this model.
 */
module Render {
  import opened Series
  import opened Json
  import opened Sniff
  import opened JsonExtract
  import opened CsvExtract

  /** The library calls the handler depends on. */
  datatype Collaborators = Collaborators(
    jsonParse: string -> Option<JValue>,    // JSON.parse; None where it throws
    csvParse: (string, bool) -> Tokenized,  // Papa.parse with the header flag, skipEmptyLines and ','; maps iff the flag is set
    jsonFloat: JValue -> Number,            // parseFloat of a JSON value that converts to a string
    textFloat: string -> Number)            // parseFloat of a CSV cell

  /** Which path the handler took and what came of it. */
  datatype Rendered = JsonPath(json: Outcome<JValue>) | CsvPath(csv: Outcome<string>)

  /** One click on the render button. A JSON.parse failure and a
      TypeError thrown inside `parseJsonData` are caught by the same
      handler and shown with the same message. */
  method OnRenderClick(text: string, hasHeader: bool, lib: Collaborators) returns (r: Rendered)
    requires lib.csvParse(Trim(text), hasHeader).data.Records? <==> hasHeader
    ensures r.JsonPath? <==> OpensLikeJson(text)
    ensures r.JsonPath? && lib.jsonParse(Trim(text)).None? ==> r.json == Failed(InvalidJson)
    ensures r.JsonPath? && lib.jsonParse(Trim(text)).Some? ==>
      r.json == JsonOutcome(lib.jsonParse(Trim(text)).value, lib.jsonFloat)
    ensures r.CsvPath? ==> r.csv == CsvOutcome(lib.csvParse(Trim(text), hasHeader), lib.textFloat)
  {
    var inputData := Trim(text);
    SniffSeesFirstNonSpace(text);
    if IsJson(inputData) {
      var jsonData := lib.jsonParse(inputData);
      if jsonData.None? {
        return JsonPath(Failed(InvalidJson));
      }
      var out := ParseJsonData(jsonData.value, lib.jsonFloat);
      return JsonPath(out);
    } else {
      var out := ParseCsvData(hasHeader, lib.csvParse(inputData, hasHeader), lib.textFloat);
      return CsvPath(out);
    }
  }
}
