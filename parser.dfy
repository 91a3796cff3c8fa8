/** src/ingestion/parser.rs: turning one line of text into a record. */
module Parser {
  import opened Wrappers
  import opened Strings
  import opened Errors
  import opened Models

  /** `serde_json::from_str::<HashMap<String, Value>>`: the JSON object decoder is
      not part of this model, so it is a parameter. It yields the object's entries
      or the decoder's error message. */
  type ObjectDecoder = string -> Result<Fields, string>

  /** `parse_json_line`: trim the line, reject it if nothing is left, decode the
      rest as a JSON object and reject an object without entries. */
  function ParseJsonLine(line: string, decode: ObjectDecoder): (r: Result<JsonLog, Report>)
    ensures AllWhitespace(line) ==> r == Err(Report(InvalidLogFormat("Empty line"), []))
    ensures !AllWhitespace(line) && decode(Trim(line)).Err? ==>
              r == Err(Report(JsonParse(decode(Trim(line)).error), ["Failed to parse JSON line"]))
    ensures !AllWhitespace(line) && decode(Trim(line)) == Ok([]) ==>
              r == Err(Report(InvalidLogFormat("Empty JSON object"), []))
    ensures r.Ok? <==> !AllWhitespace(line) && decode(Trim(line)).Ok? && decode(Trim(line)).value != []
    ensures r.Ok? ==> r.value.fields == decode(Trim(line)).value
  {
    var trimmed := Trim(line);
    if trimmed == [] then
      Err(Report(InvalidLogFormat("Empty line"), []))
    else
      match decode(trimmed)
      case Err(e) => Err(Attached(JsonParse(e), "Failed to parse JSON line"))
      case Ok(fields) =>
        if fields == [] then Err(Report(InvalidLogFormat("Empty JSON object"), []))
        else Ok(JsonLog(fields))
  }

  /** Whitespace around a line does not change how it parses. */
  lemma ParseIgnoresPadding(w1: string, line: string, w2: string, decode: ObjectDecoder)
    requires AllWhitespace(w1) && AllWhitespace(w2)
    ensures ParseJsonLine(w1 + line + w2, decode) == ParseJsonLine(line, decode)
  {
    TrimIgnoresPadding(w1, line, w2);
  }
}
