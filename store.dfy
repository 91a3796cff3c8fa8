/** The DuckDB connection the storage layer talks to, as an abstract store: a journal
    of the statements that took effect, an open transaction's statements kept apart
    until commit, and two oracles that decide what the engine does. How the engine
    evaluates SQL is not part of this model. */
module Store {
  import opened Wrappers
  import opened Errors
  import opened Models

  /** A bound parameter: the `Box<dyn ToSql>` values the storage layer passes. */
  datatype Param =
    | NullParam
    | BoolParam(b: bool)
    | BigIntParam(i: I64)
    /** An `f64` made from a number by `Number::as_f64`. The conversion itself is
        not modelled: the parameter keeps the number it came from, which for an
        integer above `i64::MAX` stands for its rounded double. */
    | DoubleParam(n: JsonNumber)
    | TextParam(s: string)
    /** `Value::to_string` of an array or object; the serialisation is not modelled. */
    | JsonTextParam(v: Value)

  /** One executed statement with its parameters. */
  datatype Statement = Statement(sql: string, params: seq<Param>)

  /** One cell of a result row, described by what each typed getter `row.get::<T>`
      returns for it. */
  datatype Cell = Cell(asText: Option<string>, asBigInt: Option<I64>, asDouble: Option<F64>, asBoolean: Option<bool>)

  /** What every getter returns for an index past the end of the row: an error. */
  const NoCell := Cell(None, None, None, None)

  function CellAt(cells: seq<Cell>, i: nat): (c: Cell)
    ensures i < |cells| ==> c == cells[i]
    ensures i >= |cells| ==> c == NoCell
  {
    if i < |cells| then cells[i] else NoCell
  }

  /** A prepared and executed query: its column names (`column_name(i)` may fail)
      and its rows, each of which the row iterator may fail to produce. */
  datatype ResultSet = ResultSet(columns: seq<Option<string>>, rows: seq<Result<seq<Cell>, DbError>>)

  /** The step of a query that failed: `prepare`, `execute` or `query_map`. */
  datatype Stage = Prepare | Execute | Map

  datatype QueryFailure = QueryFailure(stage: Stage, cause: DbError)

  /** The engine's answer to a statement, given the statements it can see: `None`
      when it takes effect, or the engine's error message. */
  type Verdict = (seq<Statement>, Statement) -> Option<string>

  /** The engine's answer to a query, given the statements it can see. */
  type Answer = (seq<Statement>, string) -> Result<ResultSet, QueryFailure>

  const BeginStatement := Statement("BEGIN TRANSACTION", [])
  const CommitStatement := Statement("COMMIT", [])

  /** `duckdb::Connection`, together with the `Transaction` borrowed from it. */
  class Connection {
    /** Statements that took effect outside a transaction or were committed. */
    var committed: seq<Statement>
    /** Statements of the open transaction. */
    var pending: seq<Statement>
    var inTransaction: bool
    const verdict: Verdict
    const answer: Answer

    /** Outside a transaction nothing is pending. */
    predicate Valid()
      reads this
    {
      !inTransaction ==> pending == []
    }

    /** What a statement run now can see. */
    function Visible(): seq<Statement>
      reads this
    {
      committed + pending
    }

    /** A freshly opened, empty database. */
    constructor (verdict: Verdict, answer: Answer)
      ensures Valid() && !inTransaction
      ensures committed == [] && pending == []
      ensures this.verdict == verdict && this.answer == answer
    {
      committed := [];
      pending := [];
      inTransaction := false;
      this.verdict := verdict;
      this.answer := answer;
    }

    /** `execute(sql, params)`: on success the statement joins the open transaction,
        or the journal when none is open; on failure nothing changes. */
    method Execute(sql: string, params: seq<Param>) returns (r: Result<Unit, DbError>)
      requires Valid()
      modifies this
      ensures Valid() && inTransaction == old(inTransaction)
      ensures verdict(old(Visible()), Statement(sql, params)).Some? ==>
                r == Err(Engine(verdict(old(Visible()), Statement(sql, params)).value))
                && committed == old(committed) && pending == old(pending)
      ensures verdict(old(Visible()), Statement(sql, params)).None? ==>
                r == Ok(Unit)
                && (if inTransaction
                    then committed == old(committed) && pending == old(pending) + [Statement(sql, params)]
                    else committed == old(committed) + [Statement(sql, params)] && pending == [])
    {
      var s := Statement(sql, params);
      match verdict(Visible(), s)
      case Some(m) =>
        r := Err(Engine(m));
      case None =>
        if inTransaction {
          pending := pending + [s];
        } else {
          committed := committed + [s];
        }
        r := Ok(Unit);
    }

    /** `transaction()`: opens a transaction unless the engine refuses. */
    method Begin() returns (r: Result<Unit, DbError>)
      requires Valid() && !inTransaction
      modifies this
      ensures Valid() && committed == old(committed) && pending == []
      ensures verdict(old(committed), BeginStatement).Some? ==>
                r == Err(Engine(verdict(old(committed), BeginStatement).value)) && !inTransaction
      ensures verdict(old(committed), BeginStatement).None? ==> r == Ok(Unit) && inTransaction
    {
      match verdict(committed, BeginStatement)
      case Some(m) =>
        r := Err(Engine(m));
      case None =>
        inTransaction := true;
        r := Ok(Unit);
    }

    /** `Transaction::commit`: the transaction's statements join the journal; if the
        engine refuses, the dropped transaction rolls them back. */
    method Commit() returns (r: Result<Unit, DbError>)
      requires Valid() && inTransaction
      modifies this
      ensures Valid() && !inTransaction && pending == []
      ensures verdict(old(Visible()), CommitStatement).Some? ==>
                r == Err(Engine(verdict(old(Visible()), CommitStatement).value)) && committed == old(committed)
      ensures verdict(old(Visible()), CommitStatement).None? ==>
                r == Ok(Unit) && committed == old(committed) + old(pending)
    {
      match verdict(Visible(), CommitStatement) {
        case Some(m) =>
          r := Err(Engine(m));
        case None =>
          committed := committed + pending;
          r := Ok(Unit);
      }
      pending := [];
      inTransaction := false;
    }

    /** Dropping an uncommitted `Transaction`: its statements are discarded. */
    method Rollback()
      requires Valid() && inTransaction
      modifies this
      ensures Valid() && !inTransaction
      ensures committed == old(committed) && pending == []
    {
      pending := [];
      inTransaction := false;
    }

    /** `prepare`, `execute` and `query_map` of a query, which change nothing. */
    method Query(sql: string) returns (r: Result<ResultSet, QueryFailure>)
      ensures r == answer(Visible(), sql)
    {
      r := answer(Visible(), sql);
    }
  }
}
