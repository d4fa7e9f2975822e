/**
  The table preview, `POST /api/table-preview`: check the requested table
  against the catalog and read its first twenty rows. Unlike the other two
  routes, this one has no `finally`: the handle is closed only on the 404 and
  success paths, so a fault after opening leaves it open.
 */
module PreviewRoute {
  import opened Wrappers
  import opened Http
  import opened Driver
  import opened Catalog

  const NameRequired := "Table name is required"
  /** The existence check, as the route's template literal writes it. */
  const ExistsSql := "\n      SELECT name FROM sqlite_master \n      WHERE type='table' AND name = ?\n    "
  const PreviewLimit := 20

  /** `{ readonly: true }`: a missing file is refused, since a read-only open
      cannot create it. */
  const Options := OpenOptions(true, false)

  /** The `TypeError` V8 raises when a `null` body is destructured. */
  const NullBodyMessage := "Cannot destructure property 'tableName' of '(intermediate value)' as it is null."

  function PreviewSql(name: string): string {
    "\n      SELECT * FROM \"" + name + "\" LIMIT 20\n    "
  }

  function NotFound(name: string): string {
    "Table '" + name + "' does not exist"
  }

  datatype Body =
    | Error(error: string)
    | Preview(table: string, columns: seq<string>, rows: seq<Row>, rowCount: int)  // success: true

  datatype Reply = Reply(status: int, body: Body)

  /** The request passed validation: a non-null body whose `tableName` is a non-empty string. */
  predicate Accepted(request: Result<Json, Fault>) {
    request.Success? && request.value.Value? && IsNonEmptyString(Member(request.value, "tableName"))
  }

  function TableName(request: Result<Json, Fault>): string
    requires Accepted(request)
  {
    Member(request.value, "tableName").s
  }

  /** The reply once `db.close()` has been called on the way out: its fault,
      if any, becomes the 500 reply in place of `reply`. */
  function AfterClose(db: Database, reply: Reply): Reply {
    match db.closeFault
    case Some(f) => Reply(500, Error(f.message))
    case None => reply
  }

  /** The first rows of a table that exists, or the fault reading them. */
  function ReadPreview(db: Database, name: string): Result<seq<Row>, Fault> {
    if '"' in name then Failure(db.identifierFault)
    else if db.tableFault.Some? then Failure(db.tableFault.value)
    else Success(Take(TableRows(db, name), PreviewLimit))
  }

  /** What the route answers (app/api/table-preview/route.ts, lines 5-52). */
  function Respond(request: Result<Json, Fault>, db: Database): Reply {
    match request
    case Failure(e) => Reply(500, Error(e.message))
    case Success(NullBody) => Reply(500, Error(NullBodyMessage))
    case Success(json) =>
      var field := Member(json, "tableName");
      if !IsNonEmptyString(field) then Reply(400, Error(NameRequired))
      else
        var name := field.s;
        match OpenFault(db)
        case Some(f) => Reply(500, Error(f.message))
        case None =>
          match db.readFault
          case Some(f) => Reply(500, Error(f.message))
          case None =>
            if !TableExists(db.catalog, name) then AfterClose(db, Reply(404, Error(NotFound(name))))
            else
              match ReadPreview(db, name)
              case Failure(f) => Reply(500, Error(f.message))
              case Success(rows) =>
                var columns := if |rows| > 0 then Keys(rows[0]) else [];
                AfterClose(db, Reply(200, Preview(name, columns, rows, |rows|)))
  }

  /** The route reaches a `db.close()` call: the handle was opened, the
      existence check ran, and then either the table is absent or its rows
      were read. */
  predicate Closes(request: Result<Json, Fault>, db: Database) {
    Accepted(request) && OpenFault(db).None? && db.readFault.None? &&
    (!TableExists(db.catalog, TableName(request)) || ReadPreview(db, TableName(request)).Success?)
  }

  /** The route call by call, with its early returns. */
  method Post(request: Result<Json, Fault>, db: Database) returns (reply: Reply, calls: seq<Call>)
    ensures reply == Respond(request, db)
    ensures calls != [] <==> Accepted(request) && OpenFault(db).None?
    ensures calls != [] ==> |calls| >= 3 && calls[..3] == [Open(Options), Call.Prepare(ExistsSql), Call.Get]
    ensures Call.Close in calls <==> Closes(request, db)
    ensures Call.Close in calls ==> calls[|calls| - 1] == Call.Close
    ensures Call.All in calls <==>
      Accepted(request) && OpenFault(db).None? && db.readFault.None? &&
      TableExists(db.catalog, TableName(request)) && '"' !in TableName(request)
    ensures Accepted(request) && OpenFault(db).None? && db.readFault.Some? ==>
      calls == [Open(Options), Call.Prepare(ExistsSql), Call.Get]
    ensures Accepted(request) && OpenFault(db).None? && db.readFault.None? && !TableExists(db.catalog, TableName(request)) ==>
      calls == [Open(Options), Call.Prepare(ExistsSql), Call.Get, Call.Close]
    ensures Accepted(request) && OpenFault(db).None? && db.readFault.None? && TableExists(db.catalog, TableName(request)) ==>
      calls == [Open(Options), Call.Prepare(ExistsSql), Call.Get, Call.Prepare(PreviewSql(TableName(request)))]
               + (if '"' in TableName(request) then [] else [Call.All])
               + (if Closes(request, db) then [Call.Close] else [])
  {
    calls := [];
    if request.Failure? {
      return Reply(500, Error(request.error.message)), calls;
    }
    if request.value.NullBody? {
      return Reply(500, Error(NullBodyMessage)), calls;
    }
    var field := Member(request.value, "tableName");
    if !IsNonEmptyString(field) {
      return Reply(400, Error(NameRequired)), calls;
    }
    var name := field.s;
    var connected := Connect(db, Options);
    if connected.Failure? {
      return Reply(500, Error(connected.error.message)), calls;
    }
    var conn := connected.value;
    var found := conn.ReadCatalog(ExistsSql, Call.Get);
    if found.Failure? {
      return Reply(500, Error(found.error.message)), conn.calls;
    }
    if !TableExists(found.value, name) {
      var closeFault := conn.Close();
      if closeFault.Some? {
        return Reply(500, Error(closeFault.value.message)), conn.calls;
      }
      return Reply(404, Error(NotFound(name))), conn.calls;
    }
    var results := conn.ReadTable(PreviewSql(name), name, PreviewLimit);
    if results.Failure? {
      return Reply(500, Error(results.error.message)), conn.calls;
    }
    var rows := results.value;
    var columns := if |rows| > 0 then Keys(rows[0]) else [];
    var closeFault := conn.Close();
    if closeFault.Some? {
      return Reply(500, Error(closeFault.value.message)), conn.calls;
    }
    return Reply(200, Preview(name, columns, rows, |rows|)), conn.calls;
  }

  /** A fault after the open — in the existence check or in reading the rows —
      is answered with 500 and leaves the handle open. */
  lemma FaultLeavesHandleOpen(request: Result<Json, Fault>, db: Database)
    requires Accepted(request) && OpenFault(db).None?
    requires || db.readFault.Some?
             || (TableExists(db.catalog, TableName(request)) && ('"' in TableName(request) || db.tableFault.Some?))
    ensures !Closes(request, db)
    ensures Respond(request, db).status == 500
  {
  }

  /** The existence check finds the table, and reading its rows then throws:
      the reply is 500 with the driver's message, and `close()` is never reached. */
  lemma RowReadFault(request: Result<Json, Fault>, db: Database)
    requires Accepted(request) && OpenFault(db).None? && db.readFault.None?
    requires TableExists(db.catalog, TableName(request)) && '"' !in TableName(request) && db.tableFault.Some?
    ensures Respond(request, db) == Reply(500, Error(db.tableFault.value.message))
    ensures !Closes(request, db)
  {
  }

  /** A preview is of the requested table: its first min(20, size) rows in
      table order, counted, with the columns of the first row
      (none when the table is empty). */
  lemma PreviewContents(request: Result<Json, Fault>, db: Database)
    requires Respond(request, db).status == 200
    ensures Accepted(request) && TableExists(db.catalog, TableName(request))
    ensures var b := Respond(request, db).body;
      && b.Preview?
      && b.table == TableName(request)
      && b.rowCount == |b.rows| <= PreviewLimit
      && b.rows == TableRows(db, b.table)[..|b.rows|]
      && (|TableRows(db, b.table)| <= PreviewLimit ==> b.rows == TableRows(db, b.table))
      && (|TableRows(db, b.table)| > PreviewLimit ==> |b.rows| == PreviewLimit)
      && (b.rows != [] ==> b.columns == Keys(b.rows[0]))
      && (b.rows == [] ==> b.columns == [])
  {
  }

  /** Every reply is 200, 400, 404 or 500. 400 is a missing, empty or non-string name;
      404 is a name with no table of that name, closed cleanly. */
  lemma StatusTaxonomy(request: Result<Json, Fault>, db: Database)
    ensures var r := Respond(request, db);
      && (r.status == 200 || r.status == 400 || r.status == 404 || r.status == 500)
      && (r.status == 200 <==> r.body.Preview?)
      && (r.status == 400 <==> request.Success? && request.value.Value? && !Accepted(request))
      && (r.status == 404 <==> Accepted(request) && OpenFault(db).None? && db.readFault.None? &&
                               !TableExists(db.catalog, TableName(request)) && db.closeFault.None?)
  {
  }

  /** The existence check is what turns a name into a 404, and its message
      quotes the name. */
  lemma MissingTable(request: Result<Json, Fault>, db: Database)
    requires Accepted(request) && OpenFault(db).None? && db.readFault.None? && db.closeFault.None?
    requires !TableExists(db.catalog, TableName(request))
    ensures Respond(request, db) == Reply(404, Error(NotFound(TableName(request))))
  {
  }

  /** A table that exists, whose name has no double quote, on a database
      without faults (its rows included), previews with status 200: its first twenty rows, counted,
      with the columns of the first of them. */
  lemma ExistingTable(request: Result<Json, Fault>, db: Database)
    requires Accepted(request) && OpenFault(db).None? && db.readFault.None? && db.closeFault.None?
    requires TableExists(db.catalog, TableName(request)) && '"' !in TableName(request) && db.tableFault.None?
    ensures var name := TableName(request);
      var rows := Take(TableRows(db, name), PreviewLimit);
      Respond(request, db) == Reply(200, Preview(name, if rows == [] then [] else Keys(rows[0]), rows, |rows|))
  {
  }

  /** Any name the listing shows can be previewed without a 404: the existence
      check accepts every listed table. */
  lemma ListedTableFound(request: Result<Json, Fault>, db: Database)
    requires Accepted(request) && TableName(request) in ListNames(db.catalog)
    ensures Respond(request, db).status != 404
  {
    ListedTablesExist(db.catalog, TableName(request));
  }
}
