# log-viewer core, modelled in Dafny

log-viewer is a terminal viewer for JSON-lines logs. It parses each line into a record.
It infers column types from a sample of the records and creates a DuckDB table from that
schema. It then loads the records in one transaction and shows them in a list that the user
can filter with an SQL `WHERE` expression. This project models that pipeline in Dafny:
- line parsing;
- the record model and its typed projections;
- the field-type lattice and schema inference;
- the DDL;
- value marshalling in both directions;
- transactional batch inserts;
- reading records and the schema back;
- the viewer state that navigation and filtering change.

Modules, leaf first:

| file | module | models |
|---|---|---|
| wrappers.dfy | Wrappers | `Option`, `Result`, `Unit` |
| errors.dfy | Errors | `LogViewerError`, the DuckDB error and a `rootcause` report with its attachments |
| strings.dfy | Strings | `str::trim`, `join`, decimal rendering of placeholders, byte-wise string order and sorted listings of a set of names |
| models.dfy | Models | `serde_json::Value`, `JsonLog` and its projections, `LogLevel` |
| parser.dfy | Parser | `parse_json_line` |
| schema.dfy | Schema | `FieldType`, `detect_field_type`, `normalize_field_name`, the inference fold, the DDL, `SchemaBuilder` |
| store.dfy | Store | the DuckDB connection as an abstract store: a journal of statements that took effect, the open transaction, and oracles for the engine |
| database.dfy | Database | `LogDatabase`: table creation, inserts, `query_logs`, `get_schema`, and the marshalling functions they use |
| app.dfy | Ui | `App`: the selection, the filter panel, applying and clearing filters |

State that the source mutates is modelled as classes:
- `SchemaBuilder` with a `map` of field types;
- `Connection` with its statement journal;
- `LogDatabase`;
- `App`.

Each state-changing method states its new state exactly, as a function of the old state and
its inputs. For `App` it does this through a value snapshot (`View`) and pure functions on
it. The properties are proved as lemmas about those functions.

The DuckDB engine is not modelled. It is represented by two function-valued fields of the
connection:
- `verdict` says whether a statement takes effect, given the statements the engine can see;
- `answer` gives the result set, or the failing step, of a query.

Every statement the core sends is written out exactly: the DDL, the `INSERT` with its
`?n` placeholders and bound parameters, the `SELECT` with the filter appended verbatim, and
the `PRAGMA table_info`. Two kinds of bound parameter are kept symbolic: the JSON text of
an array or object is the value itself, and a double is the JSON number it is made from,
which for an integer above `i64::MAX` stands for its rounded `f64`. The core's promises
are therefore stated in terms of what it sends and of what it does with each answer.

### Behaviour worth noting

- A failed filter changes only `filter_error`: `apply_filter` sets it and returns the
  error. Everything else stays as it was, including the active filter text, the results
  on screen, the view mode and the selection (`Ui.FailedFilterKeepsResults`).
- `clear_filter` leaves `filtered_logs` in place. It switches the view back to all
  records and resets the input, the selection, the active filter and the error.
- A record's typed projections read raw keys: `get_message` reads `msg`, `get_level_raw`
  reads `level` and `get_timestamp_ms` reads `time`. They do not go through the
  normaliser. For `msg`, which is an alias, this matters; see "Findings".
- `detect_field_type` tests `is_i64() || is_u64()`, so every integral JSON number, including
  one above `i64::MAX`, is typed `Integer`. Binding such a number falls through to a double
  parameter (`Database.ParamKindFollowsColumnType`).
- `insert_logs` stops at the first failing `INSERT` and returns. The transaction is dropped
  uncommitted, which DuckDB rolls back, so the journal is unchanged on every error path
  (`Database.LogDatabase.InsertLogs`).
- `get_schema` has no separate execute step. An execute-time failure is reported with the
  `query_map` note, "Failed to query table schema".

## Model

| member | source | states |
|---|---|---|
| Errors.Attached | src/storage/database.rs:59-62 | a report built from an error carries that error and exactly the one note attached to it |
| Errors.AttachTo | src/ui/app.rs:48-50 | attaching a note keeps the error and appends the note after the earlier attachments |
| Models.JsonNumber.AsI64 | src/storage/database.rs:181-186 | `as_i64` gives a value exactly when the number is integral and within the signed 64-bit range, and then gives that value |
| Models.JsonNumber.AsU64 | src/ingestion/models.rs:72-74 | `as_u64` gives a value exactly when the number is integral and non-negative, and then gives that value |
| Models.Value.AsI64 | src/ingestion/models.rs:64-66 | `Value::as_i64` gives `k` exactly when the value is the integer `k` within the signed 64-bit range |
| Models.Value.AsU64 | src/ingestion/models.rs:72-74 | `Value::as_u64` gives `k` exactly when the value is the non-negative integer `k` |
| Models.Value.AsStr | src/ingestion/models.rs:68-70 | `Value::as_str` gives `t` exactly when the value is the string `t` |
| Models.Lookup | src/ingestion/models.rs:60-62 | a key lookup finds a value exactly when some field has that key, and then finds that field's value |
| Models.LookupFindsEntry | src/ingestion/models.rs:60-62 | because keys are distinct, looking up the key of any field returns that field's value |
| Models.JsonLog.GetField | src/ingestion/models.rs:60-62 | `get_field` returns the value stored under exactly that raw key, or nothing if no field has it |
| Models.JsonLog.GetTimestampMs | src/ingestion/models.rs:64-66 | the timestamp is present exactly when the raw key `time` holds an integer within the signed 64-bit range |
| Models.JsonLog.GetMessage | src/ingestion/models.rs:68-70 | the message is present exactly when the raw key `msg` holds a string, and is that string |
| Models.JsonLog.GetLevelRaw | src/ingestion/models.rs:72-74 | the raw level is present exactly when the raw key `level` holds a non-negative integer, and is that integer |
| Models.JsonLog.GetLevel | src/ingestion/models.rs:76-79 | the level is present exactly when the raw level is one of the six codes, and its code is the raw level |
| Models.LogLevel.FromU64 | src/ingestion/models.rs:15-25 | `from_u64` succeeds exactly on 10, 20, 30, 40, 50 and 60; other codes give no level, never a failure |
| Models.LogLevel.AsU64 | src/ingestion/models.rs:38-40 | every level's code is a multiple of 10 between 10 and 60 |
| Models.LogLevel.AsStr | src/ingestion/models.rs:27-36 | every level's name is non-empty and upper case |
| Models.LevelCodeRoundTrip | src/ingestion/models.rs:15-25 | `from_u64(as_u64(l))` is `l` for every level |
| Models.LevelOrderMatchesCodes | src/ingestion/models.rs:4-12 | the severity order is the order of the numeric codes |
| Models.LevelNamesDistinct | src/ingestion/models.rs:27-36 | `as_str` names are non-empty and upper case, and distinct levels have distinct names |
| Models.MessageNeedsRawKey | src/ingestion/models.rs:68-70 | a record without a raw `msg` key has no message, whatever its other fields hold |
| Parser.ParseJsonLine | src/ingestion/parser.rs:5-26 | a blank line is an `InvalidLogFormat` error; undecodable text is a JSON error noted "Failed to parse JSON line"; an empty object is an `InvalidLogFormat` error; otherwise the result is the decoded, non-empty object's fields |
| Parser.ParseIgnoresPadding | src/ingestion/parser.rs:6 | surrounding whitespace does not change the parse result |
| Strings.TrimStart | src/ingestion/parser.rs:6 | the result is a suffix of the input, the part dropped is all whitespace, and the result is empty or starts with a non-whitespace character |
| Strings.TrimEnd | src/ingestion/parser.rs:6 | the result is a prefix of the input, the part dropped is all whitespace, and the result is empty or ends with a non-whitespace character |
| Strings.Trim | src/ingestion/parser.rs:6 | `trim` is empty exactly when the input is all whitespace; otherwise it neither starts nor ends with whitespace |
| Strings.TrimIsSlice | src/ingestion/parser.rs:6 | `trim` returns a contiguous slice of its input, and everything cut before and after that slice is whitespace |
| Strings.TrimIgnoresPadding | src/ui/app.rs:171-172 | whitespace added around a text does not change its trimmed form |
| Strings.JoinShort | src/storage/database.rs:86-88 | joining no parts gives the empty string and joining one part gives that part |
| Strings.JoinSnoc | src/ui/app.rs:171 | joining lines with one more line appends that line |
| Strings.NatToString | src/storage/database.rs:86-87 | the decimal rendering is digits only, non-empty, and without leading zeros |
| Strings.NatToStringRoundTrip | src/storage/database.rs:86-87 | the digits of the rendering read back as the number |
| Strings.NatToStringInjective | src/storage/database.rs:86-87 | different numbers render differently |
| Strings.LessIrreflexive | src/storage/schema.rs:111-112 | the string order that `sort` uses is irreflexive |
| Strings.LessTransitive | src/storage/schema.rs:111-112 | the string order is transitive |
| Strings.LessTotal | src/storage/schema.rs:111-112 | any two distinct strings are ordered one way or the other |
| Strings.SortedListingUnique | src/storage/schema.rs:134-138 | a finite set of names has only one strictly increasing listing |
| Strings.SortedListingExists | src/storage/schema.rs:134-138 | every finite set of names has a strictly increasing listing |
| Strings.SortedKeys | src/storage/schema.rs:134-138 | the sorted keys are a strictly increasing listing of exactly the given names |
| Schema.FieldType.Merge | src/storage/schema.rs:26-39 | the merged type widens both inputs |
| Schema.FieldType.ToSql | src/storage/schema.rs:15-23 | the SQL type is one of TEXT, BIGINT, DOUBLE and BOOLEAN, and it is TEXT exactly for Text and Json |
| Schema.WidensIsPartialOrder | src/storage/schema.rs:26-39 | type widening is reflexive, antisymmetric and transitive |
| Schema.MergeIsLeastUpperBound | src/storage/schema.rs:26-39 | `merge` is the least type that widens both inputs |
| Schema.MergeCases | src/storage/schema.rs:26-39 | equal types merge to themselves, Integer with Float gives Float in either order, and every other pair gives Text |
| Schema.MergeIsSemilattice | src/storage/schema.rs:26-39 | `merge` is idempotent, commutative and associative |
| Schema.DetectFieldType | src/storage/schema.rs:43-57 | null and strings give Text, booleans Boolean, integral numbers Integer, other numbers Float, and arrays and objects Json, each in both directions |
| Schema.NormalizeFieldName | src/storage/schema.rs:60-67 | the result is never an alias; non-aliases pass through unchanged; `msg` becomes `message`, `lvl` becomes `level` and `timestamp` becomes `time` |
| Schema.MessageSources | src/storage/schema.rs:60-67 | exactly `msg` and `message` normalise to `message` |
| Schema.LevelSources | src/storage/schema.rs:60-67 | exactly `lvl` and `level` normalise to `level` |
| Schema.TimeSources | src/storage/schema.rs:60-67 | exactly `timestamp` and `time` normalise to `time` |
| Schema.NormalizeIsIdempotent | src/storage/schema.rs:60-67 | normalising a canonical name leaves it unchanged |
| Schema.AbsorbFieldsKeys | src/storage/schema.rs:81-93 | the analysed schema's names are the earlier names plus the canonical names of the record's fields |
| Schema.AbsorbFieldsValue | src/storage/schema.rs:81-93 | each name's type is the merge of its earlier type and every type detected for a field that normalises to it |
| Schema.AbsorbFieldsIgnoresOrder | src/storage/schema.rs:81-93 | the order of a record's fields does not change what analysing it produces |
| Schema.AbsorbFieldsAppend | src/storage/schema.rs:96-100 | analysing two field lists in turn is the same as analysing their concatenation |
| Schema.FlattenMembers | src/storage/schema.rs:96-100 | the concatenated fields of a batch are exactly the fields of its records |
| Schema.AbsorbLogsIsFlat | src/storage/schema.rs:96-100 | analysing records one by one is the same as analysing all their fields at once |
| Schema.InferSchemaIgnoresOrder | src/storage/schema.rs:96-100 | reordering the sample leaves every inferred type and the sorted name list unchanged |
| Schema.AnalyzeLogKeys | src/storage/schema.rs:81-93 | analysing a record adds exactly its canonical field names, and names the record does not mention keep their types |
| Schema.AnalyzeLogSingleSource | src/storage/schema.rs:81-93 | a name reached from only one field gets that field's detected type |
| Schema.ColumnDefinitions | src/storage/schema.rs:114-122 | there is one definition per column, in column order, each giving the column's name and SQL type |
| Schema.CreateTableSql | src/storage/schema.rs:103-126 | the DDL starts with the sequence and table prelude and ends with `)`; with no columns it is just the prelude and `)`, and with one column the prelude, that column's definition and `\n)` |
| Schema.Columns | src/storage/schema.rs:111-112 | the columns are the schema's entries ordered by name, each name once |
| Schema.TerminatedLinesAreJoined | src/storage/schema.rs:114-122 | the loop's lines, where only the last has no comma, are the definitions joined by commas and newlines |
| Schema.EmittedIsCreateTableSql | src/storage/schema.rs:103-126 | the text the loop builds up is the DDL function's text |
| Schema.SortNames | src/storage/schema.rs:134-138 | the method's result lists every name exactly once, in strictly increasing order |
| Schema.SchemaBuilder.constructor | src/storage/schema.rs:74-78 | a new builder has no field types |
| Schema.SchemaBuilder.AnalyzeLog | src/storage/schema.rs:81-93 | the field types become the inference fold's result for the record's fields |
| Schema.SchemaBuilder.AnalyzeLogs | src/storage/schema.rs:96-100 | the field types become the fold's result over the records in order |
| Schema.SchemaBuilder.GenerateCreateTableSql | src/storage/schema.rs:103-126 | the DDL text is that of the builder's columns sorted by name |
| Schema.SchemaBuilder.SortedFields | src/storage/schema.rs:111-112 | the result is the builder's entries sorted by name |
| Schema.SchemaBuilder.PushColumnDefinitions | src/storage/schema.rs:114-122 | the loop appends each column definition with its separator and newline |
| Schema.SchemaBuilder.FieldNames | src/storage/schema.rs:134-138 | the result is the strictly increasing listing of the builder's field names |
| Store.Connection.constructor | src/storage/database.rs:16-26 | a new connection has an empty journal and no open transaction |
| Store.Connection.Execute | src/storage/database.rs:59-62 | an accepted statement joins the open transaction, or the journal if none is open; a refused one changes nothing and returns the engine's error |
| Store.Connection.Begin | src/storage/database.rs:127-131 | a transaction opens unless the engine refuses |
| Store.Connection.Commit | src/storage/database.rs:156-158 | on success the transaction's statements join the journal; on failure they are discarded |
| Store.Connection.Rollback | src/storage/database.rs:145-154 | dropping the transaction discards its statements and leaves the journal unchanged |
| Store.Connection.Query | src/storage/database.rs:236-244 | a query changes nothing and returns the engine's answer for the visible statements |
| Database.FindNormalized | src/storage/database.rs:171-175 | nothing is found exactly when no raw name normalises to the column; otherwise the value of the first such field is found |
| Database.ToParam | src/storage/database.rs:177-194 | absent and null give NULL, booleans a boolean, numbers in the signed 64-bit range a BIGINT, other numbers a DOUBLE, strings text, and arrays and objects their serialised text, each in both directions |
| Database.ToParamKeepsValue | src/storage/database.rs:177-194 | binding loses nothing but the difference between a missing value and null, for every value except an integer above `i64::MAX`; such an integer is bound through `as_f64`, which rounds, and the model keeps the integer in its place without computing the rounded double |
| Database.ParamKindFollowsColumnType | src/storage/database.rs:177-194 | the bound parameter agrees with the detected column type, except that an integer above `i64::MAX` is bound as a double |
| Database.ParamsFor | src/storage/database.rs:166-198 | there is one parameter per column, in column order, each made from the column's first matching field |
| Database.AllParams | src/storage/database.rs:115-125 | there is one parameter list per record, in order |
| Database.Placeholders | src/storage/database.rs:86-87 | the placeholders are `?1` to `?n`, in order |
| Database.PlaceholdersDistinct | src/storage/database.rs:86-87 | no two placeholders are equal |
| Database.InsertSql | src/storage/database.rs:81-89 | the INSERT starts with the table and its comma-separated columns and ends with `)`; with one column it is `INSERT INTO t (c) VALUES (?1)` |
| Database.SelectSql | src/storage/database.rs:228-232 | the query selects every column of the table, and a filter follows verbatim after ` WHERE ` |
| Database.SelectSqlAppendsClause | src/storage/database.rs:228-232 | a filter is appended verbatim after `WHERE` to the unfiltered query |
| Database.Sample | src/storage/database.rs:44-48 | the sample is the first `sample_size` records, or all of them when there are fewer |
| Database.BatchStatements | src/storage/database.rs:145-154 | there is one INSERT statement per parameter list, in order |
| Database.BatchRejected | src/storage/database.rs:145-154 | if any statement of a batch is refused, the batch as a whole is not accepted |
| Database.RefusalIsFirst | src/storage/database.rs:145-154 | a batch has at most one first refused statement, so the error the loop reports is determined |
| Database.ColumnNames | src/storage/database.rs:246-253 | each column name is the reported name, or `unknown` when none is reported |
| Database.Probe | src/storage/database.rs:268-285 | a cell is read as a string first, then as a BIGINT, a DOUBLE and a boolean, and otherwise as null |
| Database.ProbedValuesAreScalars | src/storage/database.rs:268-285 | a value read back is never an array or an object |
| Database.Put | src/storage/database.rs:287 | inserting a key sets it to the new value and leaves every other key as it was |
| Database.RecordOfHasNoId | src/storage/database.rs:263-265 | a rebuilt record has no `id` field |
| Database.RecordOfLookup | src/storage/database.rs:261-288 | each other field of a rebuilt record holds the probed value of the last column with that name |
| Database.RecordOfFields | src/storage/database.rs:261-288 | a rebuilt record has exactly the result columns other than `id` as its fields (in column order; the `HashMap`'s own order is not modelled) |
| Database.RowsToLogsErrorSticks | src/storage/database.rs:296-298 | once a row fails, collecting the rows fails with that error whatever follows |
| Database.RowsToLogsOk | src/storage/database.rs:296-298 | when collecting succeeds, every row was read and each record is that row rebuilt |
| Database.QueryOutcomeRecords | src/storage/database.rs:257-298 | every record `query_logs` returns is one result row rebuilt, in order, without an `id` |
| Database.FromDeclaredType | src/storage/database.rs:336-342 | TEXT, BIGINT, DOUBLE and BOOLEAN map to Text, Integer, Float and Boolean, and every other type name maps to Text |
| Database.DeclaredTypeRoundTrip | src/storage/database.rs:336-342 | reading back a column's SQL type gives its field type, except that Json reads back as Text |
| Database.SchemaReadBack | src/storage/database.rs:325-345 | the schema read from a table created from some columns lists the same names in the same order, with Json turned into Text |
| Database.SchemaRowsErrorSticks | src/storage/database.rs:325-330 | once a schema row fails to read, reading the schema fails with that error whatever follows |
| Database.RebuiltRecordsLoseMessage | src/ingestion/models.rs:68-70 | a record rebuilt from a table whose text column is `message` has that field, yet `get_message` finds no message in it |
| Database.CreatedColumnsAreCanonical | src/storage/database.rs:43-64 | no created column is an alias such as `msg` |
| Database.InferredNamesAreCanonical | src/storage/schema.rs:81-93 | no inferred name is an alias |
| Database.MessageOf | src/ingestion/models.rs:68-70 | the corrected projection takes the first field whose canonical name is `message`, and finds a message only if such a field exists |
| Database.MessageOfAgreesOnParsedRecords | src/ingestion/models.rs:68-70 | on a record without a raw `message` key, the corrected projection agrees with `get_message` |
| Database.MessageOfFindsCanonicalKey | src/ingestion/models.rs:68-70 | a record with `message` text and no `msg` key has that text as its message |
| Database.MessageOfFindsRebuiltMessage | src/storage/database.rs:261-288 | the corrected projection finds the message of a record rebuilt from the table |
| Database.LogDatabase.constructor | src/storage/database.rs:16-26 | a new database uses table `logs` and has no columns yet |
| Database.LogDatabase.CreateTableFromLogs | src/storage/database.rs:43-70 | the DDL for the sample's inferred schema is executed; on success the columns become the sorted inferred names; on failure the error is noted with the SQL and nothing changes |
| Database.LogDatabase.ExtractParamsFromLog | src/storage/database.rs:166-198 | the parameters are the record's values for the table's columns, in column order |
| Database.LogDatabase.InsertLog | src/storage/database.rs:73-99 | before the table exists the call fails with the "not created" note; otherwise one INSERT is run, which is journalled on success or noted with its SQL on failure |
| Database.LogDatabase.ExtractAllParams | src/storage/database.rs:115-125 | the result holds each record's parameters, in order |
| Database.LogDatabase.InsertLogs | src/storage/database.rs:102-163 | the batch succeeds exactly when the table exists and the engine accepts the begin, every INSERT and the commit; success journals all of them and returns the count of records; any failure leaves the journal as it was; a refused begin reports "Failed to start transaction", the first refused INSERT reports "Failed to insert log in batch with SQL: " with the INSERT, and a refused commit reports "Failed to commit transaction", each attached to the engine's error |
| Database.LogDatabase.ExecuteBatch | src/storage/database.rs:145-154 | the batch succeeds exactly when the engine accepts every INSERT in order, leaving them pending in the transaction; otherwise the transaction is rolled back and the error is the first refused statement's engine error with the note "Failed to insert log in batch with SQL: " and the INSERT |
| Database.LogDatabase.QueryLogs | src/storage/database.rs:227-303 | the result is the records rebuilt from the engine's answer to the SELECT with the filter, or the failing step's error with its note |
| Database.LogDatabase.RebuildRow | src/storage/database.rs:261-288 | a row's record is built from its cells and the column names |
| Database.LogDatabase.GetSchema | src/storage/database.rs:306-348 | the result is the declared columns other than `id` with their types, or the failing step's error with its note |
| Ui.Current | src/ui/app.rs:81-86 | the list on screen is all records in AllLogs mode and the filter's results in Filtered mode |
| Ui.Selected | src/ui/app.rs:89-91 | a record is selected exactly when the index is inside the list on screen, and it is the record at that index |
| Ui.InBoundsSelects | src/ui/app.rs:89-91 | in a valid state with a non-empty list, some record is selected |
| Ui.Initial | src/ui/app.rs:47-73 | the initial state shows all records, selects the first, has no filter, error or panel, and focuses the list |
| Ui.StepDown | src/ui/app.rs:94-99 | on an empty list the index stays; otherwise it moves down by the step but stays inside the list, and never moves up from a valid index |
| Ui.StepUp | src/ui/app.rs:102-106 | the index moves up by the step, and stops at 0 |
| Ui.StepDownAdds | src/ui/app.rs:94-99 | moving down by `a` and then by `b` lands where one move by `a + b` does |
| Ui.StepUpAdds | src/ui/app.rs:102-106 | moving up by `a` and then by `b` lands where one move by `a + b` does |
| Ui.StepsStayInBounds | src/ui/app.rs:94-147 | from a valid selection, moving up or down keeps it valid, and jumping to the last row of a non-empty list is valid |
| Ui.PanelToggled | src/ui/app.rs:155-162 | the panel flips; focus goes to the presets when the panel shows and to the list when it hides; nothing else changes |
| Ui.ToggleTwice | src/ui/app.rs:155-162 | toggling twice restores the panel's visibility, and from then on every second toggle returns to the same state |
| Ui.FilterText | src/ui/app.rs:171-172 | the filter text is empty exactly when the joined input is all whitespace |
| Ui.PresetFilterText | src/ui/app.rs:208-211 | a preset's filter text is the preset trimmed |
| Ui.PresetIgnoresPadding | src/ui/app.rs:208-211 | whitespace around a preset does not change the filter it applies |
| Ui.Cleared | src/ui/app.rs:198-205 | clearing shows all records, selects the first, drops the active filter and the error, and empties the input; both lists, the panel and the focus are kept |
| Ui.ClearIdempotent | src/ui/app.rs:198-205 | clearing twice is clearing once |
| Ui.FilterApplied | src/ui/app.rs:170-195 | applying succeeds exactly when the text is empty or the query succeeds; a failure passes on the query's error and sets an error message |
| Ui.FilterAppliedEffect | src/ui/app.rs:170-195 | empty text means clearing; success shows the results with the filter active, selects the first, hides the panel and focuses the list; failure records "SQL Error: ..." and changes nothing else; every case keeps the selection valid |
| Ui.FailedFilterKeepsResults | src/ui/app.rs:190-193 | a failed filter keeps the list on screen, the selection, the active filter, the results and the view mode |
| Ui.ReapplyIsStable | src/ui/app.rs:179-188 | after a successful filter, applying it again with the same answer changes nothing and succeeds |
| Ui.FilteringKeepsAllLogs | src/ui/app.rs:170-195 | applying a filter never changes the full record list |
| Ui.App.constructor | src/ui/app.rs:55-72 | the new app's state is the initial state for the records and schema |
| Ui.App.New | src/ui/app.rs:47-73 | a failed schema read is returned with the note "Failed to get database schema"; otherwise the app starts from the initial state with the schema read |
| Ui.App.CurrentLogs | src/ui/app.rs:81-86 | the list on screen for the current state |
| Ui.App.SelectedLog | src/ui/app.rs:89-91 | the selected record for the current state |
| Ui.App.MoveDown | src/ui/app.rs:94-99 | the index moves down by one within the list; nothing else changes; a valid selection stays valid |
| Ui.App.MoveUp | src/ui/app.rs:102-106 | the index moves up by one, stopping at 0; nothing else changes |
| Ui.App.JumpToFirst | src/ui/app.rs:109-111 | the index becomes 0; nothing else changes |
| Ui.App.JumpToLast | src/ui/app.rs:114-119 | the index becomes the last row of a non-empty list and is unchanged for an empty one; on a non-empty list the selection becomes valid, and a valid selection stays valid |
| Ui.App.ScrollDownHalfPage | src/ui/app.rs:122-128 | the index moves down by half the page height within the list; nothing else changes |
| Ui.App.ScrollUpHalfPage | src/ui/app.rs:131-134 | the index moves up by half the page height, stopping at 0; nothing else changes |
| Ui.App.ScrollDownPage | src/ui/app.rs:137-142 | the index moves down by the page height within the list; nothing else changes |
| Ui.App.ScrollUpPage | src/ui/app.rs:145-147 | the index moves up by the page height, stopping at 0; nothing else changes |
| Ui.App.ToggleFilterPanel | src/ui/app.rs:155-162 | the state becomes the toggled state |
| Ui.App.FocusFilter | src/ui/app.rs:214-217 | the panel shows and focus goes to the input; nothing else changes |
| Ui.App.FocusLogList | src/ui/app.rs:220-223 | focus goes to the list and the filter panel closes; nothing else changes |
| Ui.App.ClearFilter | src/ui/app.rs:198-205 | the state becomes the cleared state, and the selection is valid |
| Ui.App.ApplyFilter | src/ui/app.rs:170-195 | the state and the result are those of applying the trimmed, joined input, against the database's answer to that filter; a valid selection stays valid |
| Ui.App.ShowResults | src/ui/app.rs:179-188 | the seven fields a successful filter sets take their new values; nothing else changes |
| Ui.App.ApplyPresetFilter | src/ui/app.rs:208-211 | the input becomes the preset, and the filter that is applied is the trimmed preset |

## Left out

- The DuckDB engine: how it evaluates SQL, enforces types and constraints, and produces
  rows. It is represented by the `verdict` and `answer` oracles of `Store.Connection`.
- `new_in_memory` and `new_with_file` opening the connection, and their errors. The model
  starts from an open, empty connection.
- Decoding JSON text, which `serde_json::from_str` does. It is a function parameter of
  `Parser.ParseJsonLine`.
- `Value::to_string` of arrays and objects. `JsonTextParam` keeps the value itself.
- `Number::as_f64` and `Number::from_f64`: a double parameter keeps the JSON number it came
  from, and a double read back is only required to be finite. The `None::<i64>` fallback
  after a failed `as_f64` is unreachable for JSON numbers and is not modelled.
- Database.ToParamKeepsValue: promises a lossless binding only for values other than an
  integer above `i64::MAX`; for such an integer it states only that the parameter is a
  double made from it, because the rounding of `as_f64` is not computed.
- `HashMap` iteration order. A record's fields are a sequence with distinct keys in a
  fixed but arbitrary order, and every result that depends on that order is stated for
  the given order.
- Database.RecordOf: builds the rebuilt record's fields in the order of the result
  columns; the order in which the source's `HashMap` would yield them is not modelled.
- `JsonLog::timestamp`, the conversion to a `jiff` timestamp: date arithmetic is outside
  the model.
- The Display text of errors, which the filter error message is built from. It is a
  function field (`describe`) of `Ui.App`.
- The file reader, `main`, event dispatch, terminal setup and the rendering components:
  I/O and presentation.
- `tracing` log output, which has no effect on the state.
- `count_logs`, `table_name` and `field_names` on `LogDatabase`: one-line queries and
  getters that no modelled operation relies on.
- `toggle_help`, `toggle_debug_logs`, `toggle_detail_panel`, `quit`, and the fields
  `scroll_offset`, `show_help`, `show_debug_logs`, `show_detail_panel` and `should_quit`:
  flags used only by rendering, and no modelled operation reads them.
- `Ui.App.MoveDown`, `Ui.App.ScrollDownHalfPage` and `Ui.App.ScrollDownPage` do not model
  `usize` overflow of `selected_index + step`, because indices are unbounded here.
- The `TextArea` widget is modelled as the sequence of its lines. The placeholder text it
  shows is not modelled.
- `Schema.SchemaBuilder.FieldTypes` returns the builder's map and has no contract of its
  own.

## Findings

| source | as written | input that shows it | evidently intended | confidence | as-written member | corrected member |
|---|---|---|---|---|---|---|
| src/ingestion/models.rs:68-70 | `get_message` reads only the raw key `msg`. Records returned by `query_logs` (src/storage/database.rs:261-288) carry the canonical column `message`, because inference normalises `msg` to `message`. | take any line with a string field `msg`, load it, and read it back through `query_logs`: the rebuilt record holds `message` but its `get_message` is `None`, so a filtered list shows no message text | look the message up by its canonical name, as every other name lookup in the pipeline does | not executed | Database.RebuiltRecordsLoseMessage | Database.MessageOf |
