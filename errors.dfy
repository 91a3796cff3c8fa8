/** The error values of src/error.rs and the `rootcause` report that carries them. */
module Errors {

  /** The `duckdb::Error` values the core creates or passes on. */
  datatype DbError =
    | InvalidParameterCount(given: nat, expected: nat)
    | InvalidColumnIndex(index: nat)
    | InvalidColumnType(index: nat)
    | Engine(message: string)

  /** `LogViewerError`, restricted to the variants the core produces. */
  datatype LogViewerError =
    | JsonParse(message: string)
    | Database(cause: DbError)
    | InvalidLogFormat(reason: string)

  /** A `rootcause::Report`: the error plus the context lines attached on its way
      out, innermost first. */
  datatype Report = Report(error: LogViewerError, attachments: seq<string>)

  /** `Report::new(e)` followed by `.attach(note)`. */
  function Attached(e: LogViewerError, note: string): (r: Report)
    ensures r.error == e && r.attachments == [note]
  {
    Report(e, [note])
  }

  /** `.attach(note)` on a report that already exists: the note goes after the others. */
  function AttachTo(report: Report, note: string): (r: Report)
    ensures r.error == report.error && r.attachments == report.attachments + [note]
  {
    Report(report.error, report.attachments + [note])
  }
}
