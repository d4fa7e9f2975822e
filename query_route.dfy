/**
  The query gateway, `POST /api/query`: validate the request, open the
  existing database file read-write, prepare the statement, classify it by
  its first keyword, then either materialise the rows or run it once, and
  close the handle on the way out whatever happened.
 */
module QueryRoute {
  import opened Wrappers
  import opened Http
  import opened Driver
  import opened Classifier

  const QueryRequired := "Query is required and must be a string"
  const OpenFailed := "Failed to open database"
  const Executed := "Query executed successfully"

  /** `{ fileMustExist: true }`, read-write. */
  const Options := OpenOptions(false, true)

  /** The JSON reply bodies of the route. */
  datatype Body =
    | Error(error: string)
    | OpenError(error: string, detail: string)
    | RowSet(columns: seq<string>, rows: seq<Row>, rowCount: int)                 // success: true, type: "SELECT"
    | MutationOutcome(message: string, changes: int, lastInsertRowid: int)        // success: true, type: "DML/DDL"
  {
    /** The `type` field. */
    function Type(): Option<string> {
      if RowSet? then Some("SELECT") else if MutationOutcome? then Some("DML/DDL") else None
    }

    /** The `error` field. */
    function ErrorField(): Option<string> {
      if Error? || OpenError? then Some(error) else None
    }
  }

  datatype Reply = Reply(status: int, body: Body)

  function ServerError(f: Fault): string { "Server Error: " + Describe(f) }

  function SqlError(f: Fault): string { "SQL Error: " + Describe(f) }

  /** The request passed validation: its `query` member is a non-empty string. */
  predicate Accepted(request: Result<Json, Fault>) {
    request.Success? && IsNonEmptyString(Member(request.value, "query"))
  }

  function QueryText(request: Result<Json, Fault>): string
    requires Accepted(request)
  {
    Member(request.value, "query").s
  }

  /** A handle was opened. */
  predicate Opened(request: Result<Json, Fault>, db: Database) {
    Accepted(request) && OpenFault(db).None?
  }

  /** The statement was prepared. */
  predicate Prepared(request: Result<Json, Fault>, db: Database) {
    Opened(request, db) && db.prepare(QueryText(request)).Success?
  }

  /** Column names of a data query: the statement's metadata; only if reading
      it throws, the keys of the first row, or none when there are no rows. */
  function ResultColumns(meta: Result<seq<string>, Fault>, rows: seq<Row>): seq<string> {
    match meta
    case Success(names) => names
    case Failure(_) => if |rows| > 0 then Keys(rows[0]) else []
  }

  /** The `try` block once the handle is open: prepare, classify, then read
      the rows or run the statement (app/api/query/route.ts, lines 33-69). */
  function Execute(db: Database, sql: string): Reply {
    match db.prepare(sql)
    case Failure(e) => Reply(400, Error(SqlError(e)))
    case Success(stmt) =>
      if Classify(sql) == DataQuery then
        match stmt.rows
        case Failure(e) => Reply(400, Error(SqlError(e)))
        case Success(rows) => Reply(200, RowSet(ResultColumns(stmt.columns, rows), rows, |rows|))
      else
        match stmt.run
        case Failure(e) => Reply(400, Error(SqlError(e)))
        case Success(info) => Reply(200, MutationOutcome(Executed, info.changes, info.lastInsertRowid))
  }

  /** The calls `Execute` makes through the handle, in order. */
  function ExecuteCalls(db: Database, sql: string): seq<Call> {
    [Call.Prepare(sql)] +
    match db.prepare(sql)
    case Failure(_) => []
    case Success(stmt) =>
      if Classify(sql) == DataQuery then
        if stmt.rows.Success? then [Call.All, Call.Columns] else [Call.All]
      else [Call.Run]
  }

  /** What the route answers (app/api/query/route.ts, lines 9-83). */
  function Respond(request: Result<Json, Fault>, db: Database): Reply {
    match request
    case Failure(e) => Reply(500, Error(ServerError(e)))
    case Success(json) =>
      var query := Member(json, "query");
      if !IsNonEmptyString(query) then Reply(400, Error(QueryRequired))
      else match OpenFault(db)
        case Some(f) => Reply(500, OpenError(OpenFailed, Describe(f)))
        case None => Execute(db, query.s)
  }

  /** The statement-level work, call by call through the open handle. */
  method ExecuteOn(conn: Connection, sql: string) returns (reply: Reply)
    requires !conn.closed
    modifies conn
    ensures !conn.closed
    ensures reply == Execute(conn.db, sql)
    ensures conn.calls == old(conn.calls) + ExecuteCalls(conn.db, sql)
  {
    var prepared := conn.Prepare(sql);
    if prepared.Failure? {
      reply := Reply(400, Error(SqlError(prepared.error)));
      return;
    }
    var stmt := prepared.value;
    if Classify(sql) == DataQuery {
      var rows := conn.All(stmt);
      if rows.Failure? {
        reply := Reply(400, Error(SqlError(rows.error)));
      } else {
        var meta := conn.Columns(stmt);
        var columns: seq<string> := [];
        if meta.Success? {
          columns := meta.value;
        } else if |rows.value| > 0 {
          columns := Keys(rows.value[0]);
        }
        reply := Reply(200, RowSet(columns, rows.value, |rows.value|));
      }
    } else {
      var info := conn.Run(stmt);
      if info.Failure? {
        reply := Reply(400, Error(SqlError(info.error)));
      } else {
        reply := Reply(200, MutationOutcome(Executed, info.value.changes, info.value.lastInsertRowid));
      }
    }
  }

  /** What `Execute` does through the handle: it prepares first, reads the
      rows of a data query once and runs a mutation once, never both, asks for
      column metadata only after reading rows, and neither opens nor closes. */
  lemma ExecuteCallsShape(db: Database, sql: string)
    ensures var log := ExecuteCalls(db, sql);
      && |log| >= 1 && log[0] == Call.Prepare(sql)
      && Count(log, Call.Run) == (if db.prepare(sql).Success? && Classify(sql) == Mutation then 1 else 0)
      && Count(log, Call.All) == (if db.prepare(sql).Success? && Classify(sql) == DataQuery then 1 else 0)
      && (Call.Columns in log ==> Call.All in log)
      && Call.Close !in log
  {
    var log := ExecuteCalls(db, sql);
    var tail := log[1..];
    assert log == [Call.Prepare(sql)] + tail;
    CountAppend([Call.Prepare(sql)], tail, Call.Run);
    CountAppend([Call.Prepare(sql)], tail, Call.All);
  }

  /** The route as the source runs it: a `db` handle that starts out absent,
      is assigned by the open, is used call by call, and is closed in the
      `finally` block whenever it was assigned. A fault from `close()` is only
      logged. `calls` is the handle's log. */
  method Post(request: Result<Json, Fault>, db: Database) returns (reply: Reply, calls: seq<Call>)
    ensures reply == Respond(request, db)
    ensures calls != [] <==> Opened(request, db)
    ensures Opened(request, db) ==>
      |calls| >= 3 && calls[0] == Open(Options) && calls[1] == Call.Prepare(QueryText(request)) &&
      calls[|calls| - 1] == Call.Close && Count(calls, Call.Close) == 1
    ensures Count(calls, Call.Run) == if Prepared(request, db) && Classify(QueryText(request)) == Mutation then 1 else 0
    ensures Count(calls, Call.All) == if Prepared(request, db) && Classify(QueryText(request)) == DataQuery then 1 else 0
    ensures Call.Columns in calls ==> Call.All in calls
  {
    var handle: Option<Connection> := None;
    calls := [];
    if request.Failure? {
      reply := Reply(500, Error(ServerError(request.error)));
    } else {
      var query := Member(request.value, "query");
      if !IsNonEmptyString(query) {
        reply := Reply(400, Error(QueryRequired));
      } else {
        var connected := Connect(db, Options);
        if connected.Failure? {
          reply := Reply(500, OpenError(OpenFailed, Describe(connected.error)));
        } else {
          var conn := connected.value;
          handle := Some(conn);
          reply := ExecuteOn(conn, query.s);
          ExecuteCallsShape(db, query.s);
          LogCount(ExecuteCalls(db, query.s), Call.Run);
          LogCount(ExecuteCalls(db, query.s), Call.All);
          LogCount(ExecuteCalls(db, query.s), Call.Close);
        }
      }
    }
    // finally
    if handle.Some? {
      var conn := handle.value;
      var closeFault := conn.Close();
      calls := conn.calls;
    }
  }

  /** Counting through the full log of an opened handle. */
  lemma LogCount(log: seq<Call>, c: Call)
    ensures Count([Open(Options)] + log + [Call.Close], c)
            == Count([Open(Options)], c) + Count(log, c) + Count([Call.Close], c)
  {
    CountAppend([Open(Options)], log, c);
    CountAppend([Open(Options)] + log, [Call.Close], c);
  }

  /** The error taxonomy: every reply is 200, 400 or 500. 400 means the request
      was rejected or the statement failed in the engine; 500 means the body
      could not be read or the database could not be opened. */
  lemma StatusTaxonomy(request: Result<Json, Fault>, db: Database)
    ensures var r := Respond(request, db);
      && (r.status == 200 <==> r.body.RowSet? || r.body.MutationOutcome?)
      && (r.status == 500 <==> request.Failure? || (Accepted(request) && OpenFault(db).Some?))
      && (r.status == 400 <==> (request.Success? && !Accepted(request)) || (Opened(request, db) && r.body.Error?))
      && (r.status == 200 || r.status == 400 || r.status == 500)
  {
  }

  /** An invalid query is refused before anything else, and nothing is opened. */
  lemma InvalidQueryRefused(request: Result<Json, Fault>, db: Database)
    requires request.Success? && !Accepted(request)
    ensures Respond(request, db) == Reply(400, Error(QueryRequired))
    ensures !Opened(request, db)
  {
  }

  /** A database that cannot be opened is reported with the driver's text as the
      detail; a missing file is one such case. */
  lemma OpenFailureReported(request: Result<Json, Fault>, db: Database)
    requires Accepted(request) && OpenFault(db).Some?
    ensures Respond(request, db) == Reply(500, OpenError(OpenFailed, Describe(OpenFault(db).value)))
  {
  }

  /** Preparation comes before classification: a statement the engine refuses
      to prepare is a 400 SQL error whatever its first keyword. */
  lemma PrepareErrorIsSqlError(request: Result<Json, Fault>, db: Database)
    requires Opened(request, db) && db.prepare(QueryText(request)).Failure?
    ensures Respond(request, db) == Reply(400, Error(SqlError(db.prepare(QueryText(request)).error)))
  {
  }

  /** The reply's `type` agrees with the classifier: a successful reply says
      "SELECT" exactly for data queries and "DML/DDL" exactly for the rest. */
  lemma TypeFollowsClassifier(request: Result<Json, Fault>, db: Database)
    requires Respond(request, db).status == 200
    ensures Prepared(request, db)
    ensures Respond(request, db).body.Type() == Some("SELECT") <==> Classify(QueryText(request)) == DataQuery
    ensures Respond(request, db).body.Type() == Some("DML/DDL") <==> Classify(QueryText(request)) == Mutation
  {
  }

  /** A data-query reply passes the engine's rows through unchanged and in
      order, counts them, and takes its columns from the metadata, falling back
      to the first row's keys only when the metadata throws. */
  lemma RowSetReply(request: Result<Json, Fault>, db: Database)
    requires Respond(request, db).body.RowSet?
    ensures Prepared(request, db)
    ensures var stmt := db.prepare(QueryText(request)).value;
            var b := Respond(request, db).body;
      && stmt.rows == Success(b.rows)
      && b.rowCount == |b.rows|
      && (stmt.columns.Success? ==> b.columns == stmt.columns.value)
      && (stmt.columns.Failure? && b.rows != [] ==> b.columns == Keys(b.rows[0]))
      && (stmt.columns.Failure? && b.rows == [] ==> b.columns == [])
  {
  }

  /** A mutation reply reports the engine's counts unchanged with the fixed message. */
  lemma MutationReply(request: Result<Json, Fault>, db: Database)
    requires Respond(request, db).body.MutationOutcome?
    ensures Prepared(request, db) && Classify(QueryText(request)) == Mutation
    ensures var info := db.prepare(QueryText(request)).value.run;
            var b := Respond(request, db).body;
      info == Success(RunInfo(b.changes, b.lastInsertRowid)) && b.message == Executed
  {
  }

  /** A failure while closing never changes the reply. */
  lemma CloseFaultIgnored(request: Result<Json, Fault>, db: Database, f: Option<Fault>)
    ensures Respond(request, db.(closeFault := f)) == Respond(request, db)
  {
  }

  /** A body that cannot be read is a 500 server error. */
  lemma UnreadableBody(e: Fault, db: Database)
    ensures Respond(Failure(e), db) == Reply(500, Error(ServerError(e)))
  {
  }
}
