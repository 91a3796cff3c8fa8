/** src/storage/database.rs: the `logs` table built from inferred types, the
    conversion of records to positional parameters, batch insertion inside a
    transaction, and reading records and the table schema back. */
module Database {
  import opened Wrappers
  import opened Strings
  import opened Errors
  import opened Models
  import opened Schema
  import opened Store

  // ---------------------------------------------------------------------------
  // From records to parameters
  // ---------------------------------------------------------------------------

  /** Entry `i` is the first one whose canonical name is `name`. */
  predicate FirstMatch(fields: seq<(string, Value)>, name: string, i: nat) {
    i < |fields| && NormalizeFieldName(fields[i].0) == name
    && forall j :: 0 <= j < i ==> NormalizeFieldName(fields[j].0) != name
  }

  /** `fields.iter().find(|(k, _)| normalize_field_name(k) == name)`: the value of the
      first entry, in iteration order, whose canonical name is `name`. */
  function FindNormalized(fields: seq<(string, Value)>, name: string): (r: Option<Value>)
    ensures r.None? <==> forall i :: 0 <= i < |fields| ==> NormalizeFieldName(fields[i].0) != name
    ensures forall i: nat :: FirstMatch(fields, name, i) ==> r == Some(fields[i].1)
  {
    if fields == [] then None
    else if NormalizeFieldName(fields[0].0) == name then Some(fields[0].1)
    else
      FirstMatchShifts(fields, name);
      FindNormalized(fields[1..], name)
  }

  lemma FirstMatchShifts(fields: seq<(string, Value)>, name: string)
    requires fields != [] && NormalizeFieldName(fields[0].0) != name
    ensures forall i: nat :: FirstMatch(fields, name, i) ==> i >= 1 && FirstMatch(fields[1..], name, i - 1)
  {
    forall i: nat | FirstMatch(fields, name, i) ensures i >= 1 && FirstMatch(fields[1..], name, i - 1) {
      forall j | 0 <= j < i - 1 ensures NormalizeFieldName(fields[1..][j].0) != name {
        assert fields[1..][j] == fields[j + 1];
      }
    }
  }

  /** The parameter bound for one column: NULL for a missing or null value, the
      boolean, an `i64` when the number fits one and an `f64` otherwise, the string,
      and the JSON text of an array or object. */
  function ToParam(v: Option<Value>): (p: Param)
    ensures p == NullParam <==> v == None || v == Some(Null)
    ensures p.BoolParam? <==> v.Some? && v.value.Bool?
    ensures p.BigIntParam? <==> v.Some? && v.value.AsI64().Some?
    ensures p.DoubleParam? <==> v.Some? && v.value.Number? && v.value.AsI64().None?
    ensures p.TextParam? <==> v.Some? && v.value.String?
    ensures p.JsonTextParam? <==> v.Some? && (v.value.Array? || v.value.Object?)
  {
    match v
    case None => NullParam
    case Some(Null) => NullParam
    case Some(Bool(b)) => BoolParam(b)
    case Some(Number(n)) => if n.AsI64().Some? then BigIntParam(n.AsI64().value) else DoubleParam(n)
    case Some(String(s)) => TextParam(s)
    case Some(Array(_)) => JsonTextParam(v.value)
    case Some(Object(_)) => JsonTextParam(v.value)
  }

  /** The value a parameter stands for. */
  function ParamValue(p: Param): Value {
    match p
    case NullParam => Null
    case BoolParam(b) => Bool(b)
    case BigIntParam(i) => Number(Int(i))
    case DoubleParam(n) => Number(n)
    case TextParam(s) => String(s)
    case JsonTextParam(v) => v
  }

  /** The conversion loses nothing but the difference between a missing value and
      an explicit null, except for an integer above `i64::MAX`. Such an integer is
      bound as `as_f64` of it, which rounds (2^64 - 1 becomes 2^64); the parameter
      keeps the integer itself, and the rounded double is not computed here. */
  lemma ToParamKeepsValue(v: Option<Value>)
    ensures (v.None? || !v.value.Number? || v.value.n.Double? || v.value.n.i <= I64_MAX)
            ==> ParamValue(ToParam(v)) == if v.None? then Null else v.value
    ensures v.Some? && v.value.Number? && v.value.n.Int? && v.value.n.i > I64_MAX
            ==> ToParam(v) == DoubleParam(v.value.n)
  {
  }

  /** The parameter kind follows the column type the value was detected as, with one
      exception: an integer above `i64::MAX` makes an `Integer` (BIGINT) column but is
      bound as an `f64`. */
  lemma ParamKindFollowsColumnType(v: Value)
    ensures DetectFieldType(v) == Boolean <==> ToParam(Some(v)).BoolParam?
    ensures DetectFieldType(v) == Json <==> ToParam(Some(v)).JsonTextParam?
    ensures DetectFieldType(v) == Float ==> ToParam(Some(v)).DoubleParam?
    ensures DetectFieldType(v) == Text ==> ToParam(Some(v)) == NullParam || ToParam(Some(v)).TextParam?
    ensures DetectFieldType(v) == Integer ==> (ToParam(Some(v)).BigIntParam? <==> v.n.i <= I64_MAX)
  {
  }

  /** `extract_params_from_log`, as a value: one parameter per column name. */
  function ParamsFor(names: seq<string>, log: JsonLog): (r: seq<Param>)
    ensures |r| == |names|
    ensures forall i :: 0 <= i < |names| ==> r[i] == ToParam(FindNormalized(log.fields, names[i]))
  {
    seq(|names|, i requires 0 <= i < |names| => ToParam(FindNormalized(log.fields, names[i])))
  }

  /** One more element of a prefix. */
  lemma PrefixSnoc<T>(s: seq<T>, i: nat)
    requires i < |s|
    ensures s[..i + 1] == s[..i] + [s[i]]
  {
  }

  function AllParams(names: seq<string>, logs: seq<JsonLog>): (r: seq<seq<Param>>)
    ensures |r| == |logs| && forall i :: 0 <= i < |logs| ==> r[i] == ParamsFor(names, logs[i])
  {
    seq(|logs|, i requires 0 <= i < |logs| => ParamsFor(names, logs[i]))
  }

  // ---------------------------------------------------------------------------
  // Statements
  // ---------------------------------------------------------------------------

  /** `(1..=n).map(|i| format!("?{}", i))`. */
  function Placeholders(n: nat): (r: seq<string>)
    ensures |r| == n
    ensures forall i :: 0 <= i < n ==> r[i] == "?" + NatToString(i + 1)
  {
    seq(n, i requires 0 <= i < n => "?" + NatToString(i + 1))
  }

  /** The placeholders name `n` distinct parameters. */
  lemma PlaceholdersDistinct(n: nat, i: nat, j: nat)
    requires i < j < n
    ensures Placeholders(n)[i] != Placeholders(n)[j]
  {
    var p := Placeholders(n);
    if p[i] == p[j] {
      assert p[i][1..] == NatToString(i + 1) && p[j][1..] == NatToString(j + 1);
      NatToStringInjective(i + 1, j + 1);
    }
  }

  /** The statement both insert paths run. */
  function InsertSql(table: string, names: seq<string>): (r: string)
    ensures "INSERT INTO " + table + " (" + Join(names, ", ") + ") VALUES (" <= r && r[|r| - 1] == ')'
    ensures names == [] ==> r == "INSERT INTO " + table + " () VALUES ()"
    ensures |names| == 1 ==> r == "INSERT INTO " + table + " (" + names[0] + ") VALUES (?1)"
  {
    "INSERT INTO " + table + " (" + Join(names, ", ") + ") VALUES (" + Join(Placeholders(|names|), ", ") + ")"
  }

  /** The query of `query_logs`: every column of the table, filtered by the clause. */
  function SelectSql(table: string, whereClause: Option<string>): (r: string)
    ensures "SELECT * FROM " + table <= r
    ensures whereClause.None? ==> r == "SELECT * FROM " + table
    ensures whereClause.Some? ==> r[|"SELECT * FROM " + table|..] == " WHERE " + whereClause.value
  {
    match whereClause
    case Some(w) => "SELECT * FROM " + table + " WHERE " + w
    case None => "SELECT * FROM " + table
  }

  /** The clause is appended verbatim to the unfiltered query. */
  lemma SelectSqlAppendsClause(table: string, w: string)
    ensures SelectSql(table, Some(w)) == SelectSql(table, None) + " WHERE " + w
  {
  }

  /** The first `min(sample_size, logs.len())` records. */
  function Sample(logs: seq<JsonLog>, sampleSize: nat): (r: seq<JsonLog>)
    ensures |r| == if |logs| > sampleSize then sampleSize else |logs|
    ensures r == logs[..|r|]
  {
    if |logs| > sampleSize then logs[..sampleSize] else logs
  }

  function BatchStatements(sql: string, params: seq<seq<Param>>): (r: seq<Statement>)
    ensures |r| == |params| && forall i :: 0 <= i < |params| ==> r[i] == Statement(sql, params[i])
  {
    seq(|params|, i requires 0 <= i < |params| => Statement(sql, params[i]))
  }

  /** The engine accepts every statement of a batch, each seeing the ones before it. */
  predicate BatchAccepted(verdict: Verdict, base: seq<Statement>, stmts: seq<Statement>) {
    forall k :: 0 <= k < |stmts| ==> verdict(base + stmts[..k], stmts[k]).None?
  }

  lemma BatchAcceptedSnoc(verdict: Verdict, base: seq<Statement>, batch: seq<Statement>, n: nat)
    requires n < |batch| && BatchAccepted(verdict, base, batch[..n])
    requires verdict(base + batch[..n], batch[n]).None?
    ensures BatchAccepted(verdict, base, batch[..n + 1])
  {
    var longer := batch[..n + 1];
    forall k | 0 <= k < |longer| ensures verdict(base + longer[..k], longer[k]).None? {
      assert longer[..k] == batch[..k];
      if k < n {
        assert batch[..n][..k] == batch[..k];
        assert batch[..n][k] == batch[k];
      }
    }
  }

  lemma BatchRejected(verdict: Verdict, base: seq<Statement>, batch: seq<Statement>, n: nat)
    requires n < |batch| && verdict(base + batch[..n], batch[n]).Some?
    ensures !BatchAccepted(verdict, base, batch)
  {
  }

  /** Statement `k` of a batch is the first one the engine refuses, with message `m`:
      every statement before it was accepted. */
  predicate RefusedAt(verdict: Verdict, base: seq<Statement>, batch: seq<Statement>, k: nat, m: string) {
    k < |batch| && BatchAccepted(verdict, base, batch[..k]) && verdict(base + batch[..k], batch[k]) == Some(m)
  }

  /** A batch has at most one first refusal, so the error it reports is determined. */
  lemma RefusalIsFirst(verdict: Verdict, base: seq<Statement>, batch: seq<Statement>, k: nat, m: string, k': nat, m': string)
    requires RefusedAt(verdict, base, batch, k, m) && RefusedAt(verdict, base, batch, k', m')
    ensures k == k' && m == m'
  {
    if k < k' {
      AcceptedBeforeRefusal(verdict, base, batch, k, k', m');
    } else if k' < k {
      AcceptedBeforeRefusal(verdict, base, batch, k', k, m);
    }
  }

  lemma AcceptedBeforeRefusal(verdict: Verdict, base: seq<Statement>, batch: seq<Statement>, j: nat, k: nat, m: string)
    requires j < k && RefusedAt(verdict, base, batch, k, m)
    ensures verdict(base + batch[..j], batch[j]).None?
  {
    assert batch[..k][..j] == batch[..j] && batch[..k][j] == batch[j];
  }

  const NotCreatedSingle := "Cannot insert log: table not created yet. Call create_table_from_logs first"
  const NotCreatedBatch := "Cannot insert logs: table not created yet. Call create_table_from_logs first"

  // ---------------------------------------------------------------------------
  // From rows back to records
  // ---------------------------------------------------------------------------

  /** The column names, with "unknown" for one the engine cannot name. */
  function ColumnNames(columns: seq<Option<string>>): (r: seq<string>)
    ensures |r| == |columns|
    ensures forall i :: 0 <= i < |columns| ==> r[i] == if columns[i].Some? then columns[i].value else "unknown"
  {
    seq(|columns|, i requires 0 <= i < |columns| => if columns[i].Some? then columns[i].value else "unknown")
  }

  /** Reading one cell: as a string, else as an `i64`, else as an `f64` (a NaN or an
      infinity becomes null), else as a boolean, else null. */
  function Probe(c: Cell): (v: Value)
    ensures c.asText.Some? ==> v == String(c.asText.value)
    ensures c.asText.None? && c.asBigInt.Some? ==> v == Number(Int(c.asBigInt.value))
    ensures c.asText.None? && c.asBigInt.None? && c.asDouble.Some? ==>
              v == if IsFinite(c.asDouble.value) then Number(Double(c.asDouble.value)) else Null
    ensures c.asText.None? && c.asBigInt.None? && c.asDouble.None? && c.asBoolean.Some? ==> v == Bool(c.asBoolean.value)
    ensures c == NoCell ==> v == Null
  {
    if c.asText.Some? then String(c.asText.value)
    else if c.asBigInt.Some? then Number(Int(c.asBigInt.value))
    else if c.asDouble.Some? then
      (if IsFinite(c.asDouble.value) then Number(Double(c.asDouble.value)) else Null)
    else if c.asBoolean.Some? then Bool(c.asBoolean.value)
    else Null
  }

  /** A value read back from the table is never an array or an object: JSON columns
      come back as their text. */
  lemma ProbedValuesAreScalars(c: Cell)
    ensures DetectFieldType(Probe(c)) != Json
  {
  }

  /** `HashMap::insert`: the key now holds the value and every other key is as before. */
  function Put(fs: Fields, k: string, v: Value): (r: Fields)
    ensures forall key :: Lookup(r, key) == if key == k then Some(v) else Lookup(fs, key)
  {
    if fs == [] then [(k, v)]
    else if fs[0].0 == k then
      var r := [(k, v)] + fs[1..];
      assert forall i :: 1 <= i < |r| ==> r[i] == fs[i];
      r
    else
      var rest := Put(fs[1..], k, v);
      assert Lookup(fs[1..], fs[0].0) == None by {
        assert forall i :: 0 <= i < |fs[1..]| ==> fs[1..][i] == fs[i + 1];
      }
      var r := [fs[0]] + rest;
      assert r[1..] == rest;
      r
  }

  /** The fields built from the first `k` columns of a row, skipping `id`. */
  function RecordOf(names: seq<string>, cells: seq<Cell>, k: nat): Fields
    requires k <= |names|
  {
    if k == 0 then []
    else
      var fs := RecordOf(names, cells, k - 1);
      if names[k - 1] == "id" then fs else Put(fs, names[k - 1], Probe(CellAt(cells, k - 1)))
  }

  /** The last of the first `k` columns with the given name. */
  function LastColumn(names: seq<string>, k: nat, key: string): (r: Option<nat>)
    requires k <= |names|
    ensures r.None? <==> forall j :: 0 <= j < k ==> names[j] != key
    ensures r.Some? ==> r.value < k && names[r.value] == key
                        && forall j :: r.value < j < k ==> names[j] != key
  {
    if k == 0 then None
    else if names[k - 1] == key then Some(k - 1)
    else LastColumn(names, k - 1, key)
  }

  /** A rebuilt record has no `id`. */
  lemma RecordOfHasNoId(names: seq<string>, cells: seq<Cell>, k: nat)
    requires k <= |names|
    ensures Lookup(RecordOf(names, cells, k), "id") == None
  {
    RecordOfEmpty(names, cells, "id");
    var j := 0;
    while j < k
      invariant j <= k
      invariant Lookup(RecordOf(names, cells, j), "id") == None
    {
      j := j + 1;
      if names[j - 1] != "id" {
        RecordOfOtherColumn(names, cells, j, "id");
      } else {
        RecordOfIdColumn(names, cells, j);
      }
    }
  }

  /** The probed cell of the last of the first `k` columns with the given name. */
  function LastCell(names: seq<string>, cells: seq<Cell>, k: nat, key: string): Option<Value>
    requires k <= |names|
  {
    match LastColumn(names, k, key)
    case None => None
    case Some(j) => Some(Probe(CellAt(cells, j)))
  }

  /** Under every column name other than `id`, a rebuilt record holds the cell of the
      last column with that name. */
  lemma RecordOfLookup(names: seq<string>, cells: seq<Cell>, k: nat, key: string)
    requires k <= |names| && key != "id"
    ensures Lookup(RecordOf(names, cells, k), key) == LastCell(names, cells, k, key)
  {
    RecordOfLookupStep(names, cells, 0, key);
    var j := 0;
    while j < k
      invariant j <= k
      invariant Lookup(RecordOf(names, cells, j), key) == LastCell(names, cells, j, key)
    {
      j := j + 1;
      RecordOfLookupStep(names, cells, j, key);
    }
  }

  lemma RecordOfLookupStep(names: seq<string>, cells: seq<Cell>, k: nat, key: string)
    requires k <= |names| && key != "id"
    ensures k == 0 ==> Lookup(RecordOf(names, cells, k), key) == LastCell(names, cells, k, key)
    ensures k > 0 && Lookup(RecordOf(names, cells, k - 1), key) == LastCell(names, cells, k - 1, key) ==>
              Lookup(RecordOf(names, cells, k), key) == LastCell(names, cells, k, key)
  {
    if k == 0 {
      RecordOfEmpty(names, cells, key);
    } else if names[k - 1] != key {
      RecordOfOtherColumn(names, cells, k, key);
    } else {
      RecordOfThisColumn(names, cells, k, key);
    }
  }

  lemma RecordOfEmpty(names: seq<string>, cells: seq<Cell>, key: string)
    ensures Lookup(RecordOf(names, cells, 0), key) == None == LastCell(names, cells, 0, key)
  {
  }

  lemma RecordOfOtherColumn(names: seq<string>, cells: seq<Cell>, k: nat, key: string)
    requires 0 < k <= |names| && names[k - 1] != key
    ensures Lookup(RecordOf(names, cells, k), key) == Lookup(RecordOf(names, cells, k - 1), key)
    ensures LastCell(names, cells, k, key) == LastCell(names, cells, k - 1, key)
  {
    RecordOfStep(names, cells, k, key);
    assert LastColumn(names, k, key) == LastColumn(names, k - 1, key);
  }

  lemma RecordOfThisColumn(names: seq<string>, cells: seq<Cell>, k: nat, key: string)
    requires 0 < k <= |names| && names[k - 1] == key && key != "id"
    ensures Lookup(RecordOf(names, cells, k), key) == Some(Probe(CellAt(cells, k - 1))) == LastCell(names, cells, k, key)
  {
    RecordOfStep(names, cells, k, key);
    assert LastColumn(names, k, key) == Some(k - 1);
  }

  lemma RecordOfIdColumn(names: seq<string>, cells: seq<Cell>, k: nat)
    requires 0 < k <= |names| && names[k - 1] == "id"
    ensures Lookup(RecordOf(names, cells, k), "id") == Lookup(RecordOf(names, cells, k - 1), "id")
  {
    RecordOfStep(names, cells, k, "id");
  }

  /** The record gains the `k`-th column unless it is `id`. */
  lemma RecordOfStep(names: seq<string>, cells: seq<Cell>, k: nat, key: string)
    requires 0 < k <= |names|
    ensures Lookup(RecordOf(names, cells, k), key)
            == if names[k - 1] != "id" && names[k - 1] == key then Some(Probe(CellAt(cells, k - 1)))
               else Lookup(RecordOf(names, cells, k - 1), key)
  {
  }

  /** The fields of a rebuilt record: without `id`, each non-`id` column once. */
  lemma RecordOfFields(names: seq<string>, cells: seq<Cell>, key: string)
    ensures forall v :: (key, v) in RecordOf(names, cells, |names|) ==>
              key != "id" && key in names
    ensures key != "id" && key in names ==>
              exists v :: (key, v) in RecordOf(names, cells, |names|)
  {
    var fs := RecordOf(names, cells, |names|);
    var log := JsonLog(fs);
    if key == "id" {
      RecordOfHasNoId(names, cells, |names|);
      assert log.GetField(key) == None;
      return;
    }
    RecordOfLookup(names, cells, |names|, key);
    forall v | (key, v) in fs ensures key in names {
      assert log.GetField(key) == Some(v);
      var j := LastColumn(names, |names|, key).value;
      assert names[j] == key;
    }
    if key in names {
      var j :| 0 <= j < |names| && names[j] == key;
      assert LastColumn(names, |names|, key).Some?;
      assert log.GetField(key).Some?;
    }
  }

  /** The rows of a result set, collected: the first failing row ends the collection. */
  function RowsToLogs(names: seq<string>, rows: seq<Result<seq<Cell>, DbError>>): Result<seq<JsonLog>, DbError>
    decreases |rows|
  {
    if rows == [] then Ok([])
    else
      match RowsToLogs(names, rows[..|rows| - 1])
      case Err(e) => Err(e)
      case Ok(logs) =>
        match rows[|rows| - 1]
        case Err(e) => Err(e)
        case Ok(cells) => Ok(logs + [JsonLog(RecordOf(names, cells, |names|))])
  }

  /** Once a prefix of the rows fails, so does the whole collection, with the same error. */
  lemma {:induction false} RowsToLogsErrorSticks(names: seq<string>, rows: seq<Result<seq<Cell>, DbError>>, k: nat)
    requires k <= |rows| && RowsToLogs(names, rows[..k]).Err?
    ensures RowsToLogs(names, rows) == RowsToLogs(names, rows[..k])
    decreases |rows| - k
  {
    if k < |rows| {
      assert rows[..k + 1][..k] == rows[..k];
      RowsToLogsErrorSticks(names, rows, k + 1);
    } else {
      assert rows[..k] == rows;
    }
  }

  /** A successful collection has one record per row, rebuilt from that row. */
  lemma {:induction false} RowsToLogsOk(names: seq<string>, rows: seq<Result<seq<Cell>, DbError>>)
    requires RowsToLogs(names, rows).Ok?
    ensures |RowsToLogs(names, rows).value| == |rows|
    ensures forall i :: 0 <= i < |rows| ==>
              rows[i].Ok? && RowsToLogs(names, rows).value[i] == JsonLog(RecordOf(names, rows[i].value, |names|))
    decreases |rows|
  {
    if rows != [] {
      var n := |rows| - 1;
      RowsToLogsOk(names, rows[..n]);
      forall i | 0 <= i < n ensures rows[..n][i] == rows[i] {
      }
    }
  }

  /** The note `query_logs` attaches to the failure of each step of the query. */
  function QueryFailureReport(sql: string, f: QueryFailure): Report {
    match f.stage
    case Prepare => Attached(Database(f.cause), "Failed to prepare query: " + sql)
    case Execute => Attached(Database(f.cause), "Fail to execute query: " + sql)
    case Map => Attached(Database(f.cause), "Failed to query logs with SQL: " + sql)
  }

  /** `query_logs` after the query: the failure of each step with its note, or the
      collected records. */
  function QueryOutcome(sql: string, answer: Result<ResultSet, QueryFailure>): Result<seq<JsonLog>, Report> {
    match answer
    case Err(f) => Err(QueryFailureReport(sql, f))
    case Ok(rs) =>
      match RowsToLogs(ColumnNames(rs.columns), rs.rows)
      case Err(e) => Err(Attached(Database(e), "Failed to collect query results"))
      case Ok(logs) => Ok(logs)
  }

  /** One more row collected: its record joins the others, or its error ends the collection. */
  lemma RowsToLogsStep(names: seq<string>, rows: seq<Result<seq<Cell>, DbError>>, i: nat, logs: seq<JsonLog>)
    requires i < |rows| && RowsToLogs(names, rows[..i]) == Ok(logs)
    ensures rows[i].Ok? ==> RowsToLogs(names, rows[..i + 1]) == Ok(logs + [JsonLog(RecordOf(names, rows[i].value, |names|))])
    ensures rows[i].Err? ==> RowsToLogs(names, rows) == Err(rows[i].error)
  {
    var upTo := rows[..i + 1];
    assert upTo[..|upTo| - 1] == rows[..i] && upTo[|upTo| - 1] == rows[i];
    if rows[i].Err? {
      assert RowsToLogs(names, upTo) == Err(rows[i].error);
      RowsToLogsErrorSticks(names, rows, i + 1);
    }
  }

  /** Every record `query_logs` returns is one result row rebuilt, and none has an `id`. */
  lemma QueryOutcomeRecords(sql: string, rs: ResultSet)
    requires QueryOutcome(sql, Ok(rs)).Ok?
    ensures var logs := QueryOutcome(sql, Ok(rs)).value;
            |logs| == |rs.rows|
            && forall i :: 0 <= i < |logs| ==>
                 rs.rows[i].Ok? && logs[i] == JsonLog(RecordOf(ColumnNames(rs.columns), rs.rows[i].value, |rs.columns|))
                 && logs[i].GetField("id") == None
  {
    var names := ColumnNames(rs.columns);
    RowsToLogsOk(names, rs.rows);
    var logs := QueryOutcome(sql, Ok(rs)).value;
    forall i | 0 <= i < |logs| ensures logs[i].GetField("id") == None {
      RecordOfHasNoId(names, rs.rows[i].value, |names|);
    }
  }

  // ---------------------------------------------------------------------------
  // The schema read back
  // ---------------------------------------------------------------------------

  /** The column type for a declared SQL type; anything unknown reads as Text. */
  function FromDeclaredType(s: string): (t: FieldType)
    ensures s == "TEXT" ==> t == Text
    ensures s == "BIGINT" ==> t == Integer
    ensures s == "DOUBLE" ==> t == Float
    ensures s == "BOOLEAN" ==> t == Boolean
    ensures s !in {"TEXT", "BIGINT", "DOUBLE", "BOOLEAN"} ==> t == Text
  {
    match s
    case "TEXT" => Text
    case "BIGINT" => Integer
    case "DOUBLE" => Float
    case "BOOLEAN" => Boolean
    case _ => Text
  }

  /** Declared types read back as the types they were made from, except that a Json
      column, declared TEXT, reads back as Text. */
  lemma DeclaredTypeRoundTrip(t: FieldType)
    ensures FromDeclaredType(t.ToSql()) == if t == Json then Text else t
  {
  }

  /** The error of `row.get::<String>(i)` that returns nothing. */
  function GetError(cells: seq<Cell>, i: nat): DbError {
    if i < |cells| then InvalidColumnType(i) else InvalidColumnIndex(i)
  }

  const SchemaRowNote := "Failed to read schema row"

  /** The rows of `PRAGMA table_info`, read as (name, declared type) and skipping `id`;
      the first row that cannot be read ends the loop. */
  function SchemaRowsOf(rows: seq<Result<seq<Cell>, DbError>>): Result<seq<(string, FieldType)>, Report>
    decreases |rows|
  {
    if rows == [] then Ok([])
    else
      match SchemaRowsOf(rows[..|rows| - 1])
      case Err(e) => Err(e)
      case Ok(schema) =>
        match rows[|rows| - 1]
        case Err(e) => Err(Attached(Database(e), SchemaRowNote))
        case Ok(cells) =>
          if CellAt(cells, 1).asText.None? then Err(Attached(Database(GetError(cells, 1)), SchemaRowNote))
          else if CellAt(cells, 2).asText.None? then Err(Attached(Database(GetError(cells, 2)), SchemaRowNote))
          else
            var name := CellAt(cells, 1).asText.value;
            if name == "id" then Ok(schema)
            else Ok(schema + [(name, FromDeclaredType(CellAt(cells, 2).asText.value))])
  }

  /** `get_schema` after the query. The statement has no separate `execute` step, so a
      failure to run it is reported with the `query_map` note. */
  function SchemaOutcome(sql: string, answer: Result<ResultSet, QueryFailure>): Result<seq<(string, FieldType)>, Report> {
    match answer
    case Err(QueryFailure(Prepare, e)) => Err(Attached(Database(e), "Failed to prepare schema query: " + sql))
    case Err(QueryFailure(_, e)) => Err(Attached(Database(e), "Failed to query table schema"))
    case Ok(rs) => SchemaRowsOf(rs.rows)
  }

  function TextCell(s: string): Cell {
    Cell(Some(s), None, None, None)
  }

  /** The `table_info` row describing a column: position, name, declared type. */
  function TableInfoRow(position: nat, name: string, sqlType: string): Result<seq<Cell>, DbError> {
    Ok([Cell(None, Some(if position <= I64_MAX then position else 0), None, None), TextCell(name), TextCell(sqlType)])
  }

  /** The `table_info` rows of the table made by `CreateTableSql(table, columns)`, with
      each column's declared type reported as written. DuckDB usually reports a TEXT
      column as VARCHAR instead; `FromDeclaredType` sends that, like every other name
      it does not know, to Text, so the schema read back is the same either way. */
  function TableInfo(columns: seq<(string, FieldType)>): (r: seq<Result<seq<Cell>, DbError>>)
    ensures |r| == |columns| + 1
  {
    [TableInfoRow(0, "id", "INTEGER")]
    + seq(|columns|, i requires 0 <= i < |columns| => TableInfoRow(i + 1, columns[i].0, columns[i].1.ToSql()))
  }

  /** The column types as they read back. */
  function ReadBack(columns: seq<(string, FieldType)>): (r: seq<(string, FieldType)>)
    ensures |r| == |columns|
  {
    seq(|columns|, i requires 0 <= i < |columns| => (columns[i].0, FromDeclaredType(columns[i].1.ToSql())))
  }

  /** Reading the schema of a table created from `columns` (none named `id`) gives the
      same names in the same order, with Json columns turned into Text. */
  lemma SchemaReadBack(columns: seq<(string, FieldType)>)
    requires forall i :: 0 <= i < |columns| ==> columns[i].0 != "id"
    ensures SchemaRowsOf(TableInfo(columns)) == Ok(ReadBack(columns))
    ensures forall i :: 0 <= i < |columns| ==>
              ReadBack(columns)[i] == (columns[i].0, if columns[i].1 == Json then Text else columns[i].1)
  {
    forall i | 0 <= i < |columns| ensures ReadBack(columns)[i].1 == if columns[i].1 == Json then Text else columns[i].1 {
      DeclaredTypeRoundTrip(columns[i].1);
    }
    TableInfoReadsBack(columns);
  }

  lemma TableInfoReadsBack(columns: seq<(string, FieldType)>)
    requires forall i :: 0 <= i < |columns| ==> columns[i].0 != "id"
    ensures SchemaRowsOf(TableInfo(columns)) == Ok(ReadBack(columns))
  {
    assert TableInfo(columns[..0]) == [TableInfoRow(0, "id", "INTEGER")];
    assert SchemaRowsOf(TableInfo(columns[..0])) == Ok([]) by {
      assert TableInfo(columns[..0])[..0] == [];
    }
    var j := 0;
    while j < |columns|
      invariant j <= |columns|
      invariant SchemaRowsOf(TableInfo(columns[..j])) == Ok(ReadBack(columns[..j]))
    {
      ReadBackStep(columns, j);
      j := j + 1;
    }
    assert columns[..j] == columns;
  }

  /** Reading back one more column row. */
  lemma ReadBackStep(columns: seq<(string, FieldType)>, j: nat)
    requires j < |columns| && columns[j].0 != "id"
    requires SchemaRowsOf(TableInfo(columns[..j])) == Ok(ReadBack(columns[..j]))
    ensures SchemaRowsOf(TableInfo(columns[..j + 1])) == Ok(ReadBack(columns[..j + 1]))
  {
    var upTo := columns[..j + 1];
    assert upTo[..j] == columns[..j] && upTo[j] == columns[j];
    TableInfoSnoc(upTo);
    SchemaRowsSnoc(TableInfo(columns[..j]), ReadBack(columns[..j]), j + 1, columns[j].0, columns[j].1.ToSql());
    ReadBackSnoc(upTo);
  }

  lemma ReadBackSnoc(columns: seq<(string, FieldType)>)
    requires columns != []
    ensures var n := |columns| - 1;
            ReadBack(columns) == ReadBack(columns[..n]) + [(columns[n].0, FromDeclaredType(columns[n].1.ToSql()))]
  {
    var n := |columns| - 1;
    assert ReadBack(columns)[..n] == ReadBack(columns[..n]);
    assert ReadBack(columns) == ReadBack(columns)[..n] + [ReadBack(columns)[n]];
  }

  lemma TableInfoSnoc(columns: seq<(string, FieldType)>)
    requires columns != []
    ensures var n := |columns| - 1;
            TableInfo(columns) == TableInfo(columns[..n]) + [TableInfoRow(n + 1, columns[n].0, columns[n].1.ToSql())]
  {
    var n := |columns| - 1;
    assert TableInfo(columns)[..n + 1] == TableInfo(columns[..n]);
    assert TableInfo(columns) == TableInfo(columns)[..n + 1] + [TableInfo(columns)[n + 1]];
  }

  /** One more readable column row after rows read as `schema`. */
  lemma SchemaRowsSnoc(rows: seq<Result<seq<Cell>, DbError>>, schema: seq<(string, FieldType)>,
                       position: nat, name: string, sqlType: string)
    requires SchemaRowsOf(rows) == Ok(schema) && name != "id"
    ensures SchemaRowsOf(rows + [TableInfoRow(position, name, sqlType)])
            == Ok(schema + [(name, FromDeclaredType(sqlType))])
  {
    var more := rows + [TableInfoRow(position, name, sqlType)];
    assert more[..|more| - 1] == rows;
  }

  // ---------------------------------------------------------------------------
  // Messages of rebuilt records
  // ---------------------------------------------------------------------------

  /** As written, `get_message` reads the raw key `msg`, but a table made from
      inferred types only has canonical columns such as `message`: no record read
      back from it has a message, even when its `message` cell holds text. */
  lemma RebuiltRecordsLoseMessage(names: seq<string>, cells: seq<Cell>, text: string)
    requires "msg" !in names && "message" in names
    requires forall j :: 0 <= j < |names| && names[j] == "message" ==> CellAt(cells, j) == TextCell(text)
    ensures JsonLog(RecordOf(names, cells, |names|)).GetField("message") == Some(String(text))
    ensures JsonLog(RecordOf(names, cells, |names|)).GetMessage() == None
  {
    var log := JsonLog(RecordOf(names, cells, |names|));
    RecordOfLookup(names, cells, |names|, "message");
    RecordOfLookup(names, cells, |names|, "msg");
    assert log.GetField("msg") == None;
  }

  /** The columns of a table made by `create_table_from_logs` are canonical names. */
  lemma CreatedColumnsAreCanonical(sample: seq<JsonLog>)
    ensures forall name :: name in SortedKeys(InferSchema(sample).Keys) ==> name !in Aliases
  {
    forall name | name in SortedKeys(InferSchema(sample).Keys) ensures name !in Aliases {
      InferredNamesAreCanonical(sample, name);
    }
  }

  /** Every inferred column name is canonical, never one of the aliases. */
  lemma InferredNamesAreCanonical(sample: seq<JsonLog>, name: string)
    ensures name in InferSchema(sample) ==> name !in Aliases
  {
    AbsorbLogsIsFlat(map[], sample);
    AbsorbFieldsKeys(map[], Flatten(sample));
    if name in InferSchema(sample) {
      assert name in NamesOf(Flatten(sample));
      var p :| p in Flatten(sample) && NormalizeFieldName(p.0) == name;
    }
  }

  /** The message lookup the viewer evidently intends: the first entry whose
      canonical name is `message`, which finds `msg` in a parsed record and
      `message` in a record read back from the table. */
  function MessageOf(log: JsonLog): (r: Option<string>)
    ensures forall i: nat :: FirstMatch(log.fields, "message", i) ==> r == log.fields[i].1.AsStr()
    ensures r.Some? ==> exists i :: 0 <= i < |log.fields| && NormalizeFieldName(log.fields[i].0) == "message"
  {
    match FindNormalized(log.fields, "message")
    case None => None
    case Some(v) => v.AsStr()
  }

  /** On a parsed record without a `message` key, the corrected lookup agrees with
      `get_message`. */
  lemma MessageOfAgreesOnParsedRecords(log: JsonLog)
    requires log.GetField("message") == None
    ensures MessageOf(log) == log.GetMessage()
  {
    var fs := log.fields;
    match log.GetField("msg")
    case Some(v) =>
      var i :| 0 <= i < |fs| && fs[i] == ("msg", v);
      forall j | 0 <= j < i ensures NormalizeFieldName(fs[j].0) != "message" {
        assert fs[j].0 != fs[i].0;
        MessageSources(fs[j].0);
      }
      MessageSources(fs[i].0);
      assert FirstMatch(fs, "message", i);
    case None =>
      forall j | 0 <= j < |fs| ensures NormalizeFieldName(fs[j].0) != "message" {
        MessageSources(fs[j].0);
      }
  }

  /** A record with text under `message` and no `msg` has that text as its message
      under the corrected lookup. */
  lemma MessageOfFindsCanonicalKey(log: JsonLog, text: string)
    requires log.GetField("message") == Some(String(text)) && log.GetField("msg") == None
    ensures MessageOf(log) == Some(text)
  {
    var fs := log.fields;
    var i :| 0 <= i < |fs| && fs[i] == ("message", String(text));
    forall j | 0 <= j < i ensures NormalizeFieldName(fs[j].0) != "message" {
      assert fs[j].0 != fs[i].0;
      MessageSources(fs[j].0);
    }
    assert FirstMatch(fs, "message", i);
  }

  /** The corrected lookup finds the text of the `message` column of a rebuilt record. */
  lemma MessageOfFindsRebuiltMessage(names: seq<string>, cells: seq<Cell>, text: string)
    requires "msg" !in names && "message" in names
    requires forall j :: 0 <= j < |names| && names[j] == "message" ==> CellAt(cells, j) == TextCell(text)
    ensures MessageOf(JsonLog(RecordOf(names, cells, |names|))) == Some(text)
  {
    var log := JsonLog(RecordOf(names, cells, |names|));
    RecordOfLookup(names, cells, |names|, "message");
    RecordOfLookup(names, cells, |names|, "msg");
    assert log.GetField("msg") == None;
    MessageOfFindsCanonicalKey(log, text);
  }

  // ---------------------------------------------------------------------------
  // The database
  // ---------------------------------------------------------------------------

  /** `LogDatabase`: a connection, the table name and the columns created. */
  class LogDatabase {
    const conn: Connection
    const tableName: string
    var fieldNames: seq<string>

    /** No transaction is left open between calls. */
    predicate Valid()
      reads this, conn
    {
      conn.Valid() && !conn.inTransaction
    }

    /** `new_in_memory` / `new_with_file` once the connection is open: the table
        `logs` has no columns yet. */
    constructor (conn: Connection)
      requires conn.Valid() && !conn.inTransaction
      ensures Valid() && this.conn == conn && tableName == "logs" && fieldNames == []
    {
      this.conn := conn;
      tableName := "logs";
      fieldNames := [];
    }

    /** `create_table_from_logs`: infer the types of the sample, create the table and
        only then remember its columns. */
    method CreateTableFromLogs(logs: seq<JsonLog>, sampleSize: nat) returns (r: Result<Unit, Report>)
      requires Valid()
      modifies this, conn
      ensures Valid()
      ensures var schema := InferSchema(Sample(logs, sampleSize));
              var ddl := Statement(CreateTableSql(tableName, Columns(schema)), []);
              match conn.verdict(old(conn.committed), ddl)
              case None =>
                r == Ok(Unit) && fieldNames == SortedKeys(schema.Keys)
                && SortedListing(fieldNames, schema.Keys)
                && conn.committed == old(conn.committed) + [ddl]
              case Some(m) =>
                r == Err(Attached(Database(Engine(m)), "Failed to create table with SQL: " + ddl.sql))
                && fieldNames == old(fieldNames) && conn.committed == old(conn.committed)
    {
      var sample := if |logs| > sampleSize then logs[..sampleSize] else logs;
      var builder := new SchemaBuilder();
      builder.AnalyzeLogs(sample);
      var createSql := builder.GenerateCreateTableSql(tableName);
      assert conn.Visible() == conn.committed;
      var executed := conn.Execute(createSql, []);
      if executed.Err? {
        r := Err(Attached(Database(executed.error), "Failed to create table with SQL: " + createSql));
        return;
      }
      fieldNames := builder.FieldNames();
      r := Ok(Unit);
    }

    /** `extract_params_from_log`: one parameter per column, in column order. */
    method ExtractParamsFromLog(log: JsonLog) returns (params: seq<Param>)
      ensures params == ParamsFor(fieldNames, log)
    {
      ghost var expected := ParamsFor(fieldNames, log);
      params := [];
      var i := 0;
      while i < |fieldNames|
        invariant 0 <= i <= |fieldNames| == |expected|
        invariant params == expected[..i]
      {
        var value := FindNormalized(log.fields, fieldNames[i]);
        PrefixSnoc(expected, i);
        params := params + [ToParam(value)];
        i := i + 1;
      }
      assert expected[..i] == expected;
    }

    /** `insert_log`: refuse before the table exists, else run one INSERT. */
    method InsertLog(log: JsonLog) returns (r: Result<Unit, Report>)
      requires Valid()
      modifies conn
      ensures Valid()
      ensures fieldNames == [] ==>
                r == Err(Attached(Database(InvalidParameterCount(0, 0)), NotCreatedSingle))
                && conn.committed == old(conn.committed)
      ensures var insert := Statement(InsertSql(tableName, fieldNames), ParamsFor(fieldNames, log));
              fieldNames != [] ==>
                match conn.verdict(old(conn.committed), insert)
                case None => r == Ok(Unit) && conn.committed == old(conn.committed) + [insert]
                case Some(m) =>
                  r == Err(Attached(Database(Engine(m)), "Failed to insert log with SQL: " + insert.sql))
                  && conn.committed == old(conn.committed)
    {
      if |fieldNames| == 0 {
        r := Err(Attached(Database(InvalidParameterCount(0, 0)), NotCreatedSingle));
        return;
      }
      var insertSql := InsertSql(tableName, fieldNames);
      var params := ExtractParamsFromLog(log);
      assert conn.Visible() == conn.committed;
      var executed := conn.Execute(insertSql, params);
      if executed.Err? {
        r := Err(Attached(Database(executed.error), "Failed to insert log with SQL: " + insertSql));
        return;
      }
      r := Ok(Unit);
    }

    /** The parameters of every record, extracted before the transaction opens. */
    method ExtractAllParams(logs: seq<JsonLog>) returns (allParams: seq<seq<Param>>)
      ensures allParams == AllParams(fieldNames, logs)
    {
      allParams := [];
      var j := 0;
      while j < |logs|
        invariant 0 <= j <= |logs|
        invariant allParams == AllParams(fieldNames, logs)[..j]
      {
        var params := ExtractParamsFromLog(logs[j]);
        allParams := allParams + [params];
        j := j + 1;
      }
    }

    /** `insert_logs`: refuse before the table exists; else run one INSERT per record
        inside a transaction, stopping at the first failure without committing. */
    method InsertLogs(logs: seq<JsonLog>) returns (r: Result<nat, Report>)
      requires Valid()
      modifies conn
      ensures Valid()
      ensures fieldNames == [] ==> r == Err(Attached(Database(InvalidParameterCount(0, 0)), NotCreatedBatch))
      ensures r.Err? ==> conn.committed == old(conn.committed)
      ensures var batch := BatchStatements(InsertSql(tableName, fieldNames), AllParams(fieldNames, logs));
              r.Ok? <==>
                fieldNames != []
                && conn.verdict(old(conn.committed), BeginStatement).None?
                && BatchAccepted(conn.verdict, old(conn.committed), batch)
                && conn.verdict(old(conn.committed) + batch, CommitStatement).None?
      ensures fieldNames != [] && conn.verdict(old(conn.committed), BeginStatement).Some? ==>
                r == Err(Attached(Database(Engine(conn.verdict(old(conn.committed), BeginStatement).value)),
                                  "Failed to start transaction"))
      ensures var batch := BatchStatements(InsertSql(tableName, fieldNames), AllParams(fieldNames, logs));
              fieldNames != [] && conn.verdict(old(conn.committed), BeginStatement).None?
              && !BatchAccepted(conn.verdict, old(conn.committed), batch) ==>
                exists k: nat, m :: RefusedAt(conn.verdict, old(conn.committed), batch, k, m)
                  && r == Err(Attached(Database(Engine(m)),
                                       "Failed to insert log in batch with SQL: " + InsertSql(tableName, fieldNames)))
      ensures var batch := BatchStatements(InsertSql(tableName, fieldNames), AllParams(fieldNames, logs));
              fieldNames != [] && conn.verdict(old(conn.committed), BeginStatement).None?
              && BatchAccepted(conn.verdict, old(conn.committed), batch)
              && conn.verdict(old(conn.committed) + batch, CommitStatement).Some? ==>
                r == Err(Attached(Database(Engine(conn.verdict(old(conn.committed) + batch, CommitStatement).value)),
                                  "Failed to commit transaction"))
      ensures r.Ok? ==>
                r.value == |logs|
                && conn.committed == old(conn.committed)
                                     + BatchStatements(InsertSql(tableName, fieldNames), AllParams(fieldNames, logs))
    {
      if |fieldNames| == 0 {
        r := Err(Attached(Database(InvalidParameterCount(0, 0)), NotCreatedBatch));
        return;
      }

      var allParams := ExtractAllParams(logs);
      var started := conn.Begin();
      if started.Err? {
        r := Err(Attached(Database(started.error), "Failed to start transaction"));
        return;
      }

      var insertSql := InsertSql(tableName, fieldNames);
      var inserted := ExecuteBatch(insertSql, allParams);
      if inserted.Err? {
        r := Err(inserted.error);
        return;
      }

      assert conn.Visible() == old(conn.committed) + BatchStatements(insertSql, allParams);
      var committed := conn.Commit();
      if committed.Err? {
        r := Err(Attached(Database(committed.error), "Failed to commit transaction"));
        return;
      }
      r := Ok(inserted.value);
    }

    /** The loop of `insert_logs` inside the open transaction: one INSERT per parameter
        list; the first failure drops (rolls back) the transaction. */
    method ExecuteBatch(insertSql: string, allParams: seq<seq<Param>>) returns (r: Result<nat, Report>)
      requires conn.Valid() && conn.inTransaction && conn.pending == []
      modifies conn
      ensures conn.Valid() && conn.committed == old(conn.committed)
      ensures var batch := BatchStatements(insertSql, allParams);
              r.Ok? <==> BatchAccepted(conn.verdict, old(conn.committed), batch)
      ensures r.Ok? ==> r.value == |allParams| && conn.inTransaction
                        && conn.pending == BatchStatements(insertSql, allParams)
      ensures r.Err? ==> !conn.inTransaction
      ensures r.Err? ==>
                exists k: nat, m :: RefusedAt(conn.verdict, old(conn.committed), BatchStatements(insertSql, allParams), k, m)
                  && r.error == Attached(Database(Engine(m)), "Failed to insert log in batch with SQL: " + insertSql)
    {
      ghost var batch := BatchStatements(insertSql, allParams);
      var inserted := 0;
      while inserted < |allParams|
        invariant 0 <= inserted <= |allParams|
        invariant conn.Valid() && conn.inTransaction
        invariant conn.committed == old(conn.committed) && conn.pending == batch[..inserted]
        invariant BatchAccepted(conn.verdict, old(conn.committed), batch[..inserted])
      {
        assert conn.Visible() == old(conn.committed) + batch[..inserted];
        var executed := conn.Execute(insertSql, allParams[inserted]);
        if executed.Err? {
          BatchRejected(conn.verdict, old(conn.committed), batch, inserted);
          assert RefusedAt(conn.verdict, old(conn.committed), batch, inserted, executed.error.message);
          conn.Rollback();
          r := Err(Attached(Database(executed.error), "Failed to insert log in batch with SQL: " + insertSql));
          return;
        }
        BatchAcceptedSnoc(conn.verdict, old(conn.committed), batch, inserted);
        inserted := inserted + 1;
      }
      assert batch[..inserted] == batch;
      r := Ok(inserted);
    }

    /** `query_logs`: run the SELECT and rebuild one record per row. */
    method QueryLogs(whereClause: Option<string>) returns (r: Result<seq<JsonLog>, Report>)
      ensures r == QueryOutcome(SelectSql(tableName, whereClause),
                                conn.answer(conn.Visible(), SelectSql(tableName, whereClause)))
    {
      var sql := SelectSql(tableName, whereClause);
      var answer := conn.Query(sql);
      if answer.Err? {
        r := Err(QueryFailureReport(sql, answer.error));
        return;
      }
      var rs := answer.value;
      var columnNames := ColumnNames(rs.columns);
      var logs := [];
      var i := 0;
      while i < |rs.rows|
        invariant 0 <= i <= |rs.rows|
        invariant RowsToLogs(columnNames, rs.rows[..i]) == Ok(logs)
      {
        RowsToLogsStep(columnNames, rs.rows, i, logs);
        if rs.rows[i].Err? {
          r := Err(Attached(Database(rs.rows[i].error), "Failed to collect query results"));
          return;
        }
        var fields := RebuildRow(columnNames, rs.rows[i].value);
        logs := logs + [JsonLog(fields)];
        i := i + 1;
      }
      assert rs.rows[..i] == rs.rows;
      r := Ok(logs);
    }

    /** The `query_map` closure of `query_logs`: one record from one row, skipping
        the `id` column and inserting every other column under its name. */
    static method RebuildRow(columnNames: seq<string>, cells: seq<Cell>) returns (fields: Fields)
      ensures fields == RecordOf(columnNames, cells, |columnNames|)
    {
      fields := [];
      var k := 0;
      while k < |columnNames|
        invariant 0 <= k <= |columnNames|
        invariant fields == RecordOf(columnNames, cells, k)
      {
        if columnNames[k] != "id" {
          var value := Probe(CellAt(cells, k));
          fields := Put(fields, columnNames[k], value);
        }
        k := k + 1;
      }
    }

    /** `get_schema`: the declared columns other than `id`, with their types. */
    method GetSchema() returns (r: Result<seq<(string, FieldType)>, Report>)
      ensures var sql := "PRAGMA table_info(" + tableName + ")";
              r == SchemaOutcome(sql, conn.answer(conn.Visible(), sql))
    {
      var sql := "PRAGMA table_info(" + tableName + ")";
      var answer := conn.Query(sql);
      if answer.Err? {
        if answer.error.stage == Prepare {
          r := Err(Attached(Database(answer.error.cause), "Failed to prepare schema query: " + sql));
        } else {
          r := Err(Attached(Database(answer.error.cause), "Failed to query table schema"));
        }
        return;
      }
      var rows := answer.value.rows;
      var schema := [];
      var i := 0;
      while i < |rows|
        invariant 0 <= i <= |rows|
        invariant SchemaRowsOf(rows[..i]) == Ok(schema)
      {
        assert rows[..i + 1][..i] == rows[..i];
        if rows[i].Err? {
          SchemaRowsErrorSticks(rows, i + 1);
          r := Err(Attached(Database(rows[i].error), SchemaRowNote));
          return;
        }
        var cells := rows[i].value;
        if CellAt(cells, 1).asText.None? {
          SchemaRowsErrorSticks(rows, i + 1);
          r := Err(Attached(Database(GetError(cells, 1)), SchemaRowNote));
          return;
        }
        if CellAt(cells, 2).asText.None? {
          SchemaRowsErrorSticks(rows, i + 1);
          r := Err(Attached(Database(GetError(cells, 2)), SchemaRowNote));
          return;
        }
        var name := CellAt(cells, 1).asText.value;
        var typeStr := CellAt(cells, 2).asText.value;
        if name != "id" {
          schema := schema + [(name, FromDeclaredType(typeStr))];
        }
        i := i + 1;
      }
      assert rows[..i] == rows;
      r := Ok(schema);
    }
  }

  lemma {:induction false} SchemaRowsErrorSticks(rows: seq<Result<seq<Cell>, DbError>>, k: nat)
    requires k <= |rows| && SchemaRowsOf(rows[..k]).Err?
    ensures SchemaRowsOf(rows) == SchemaRowsOf(rows[..k])
    decreases |rows| - k
  {
    if k < |rows| {
      assert rows[..k + 1][..k] == rows[..k];
      SchemaRowsErrorSticks(rows, k + 1);
    } else {
      assert rows[..k] == rows;
    }
  }
}
