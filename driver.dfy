/**
  The database driver (better-sqlite3) and the SQLite engine behind it, as an
  oracle. A `Database` value fixes, for one request, everything the engine
  would decide: whether the file is there, which faults it raises, what
  preparing a given SQL text yields, and the catalog and table contents that
  the fixed catalog and preview statements read. A `Connection` is one open
  handle; it records, in order, every call made through it.
 */
module Driver {
  import opened Wrappers

  /** A column value as the driver hands it to JavaScript. */
  datatype Value = Null | Integer(i: int) | Text(s: string)

  /** A result row: a JavaScript object, that is, its keys in order with their values. */
  type Row = seq<(string, Value)>

  /** `Object.keys(row)`. */
  function Keys(row: Row): seq<string> {
    seq(|row|, i requires 0 <= i < |row| => row[i].0)
  }

  /** `row[column]`: the value under the first key equal to `column`, if any. */
  function Lookup(row: Row, column: string): (v: Option<Value>)
    ensures v.Some? <==> column in Keys(row)
    ensures v.Some? ==> exists i :: 0 <= i < |row| && row[i] == (column, v.value)
  {
    if row == [] then None
    else if row[0].0 == column then assert Keys(row)[0] == column; Some(row[0].1)
    else
      var v := Lookup(row[1..], column);
      assert Keys(row) == [row[0].0] + Keys(row[1..]);
      assert v.Some? ==> exists i :: 0 <= i < |row[1..]| && row[1..][i] == (column, v.value);
      v
  }

  /** A JavaScript error: its `name` and its `message`. */
  datatype Fault = Fault(name: string, message: string)

  /** `String(err)`, which is `Error.prototype.toString`: the name, a colon and
      a space, and the message, leaving out whichever of the two is empty. */
  function Describe(f: Fault): (s: string)
    ensures f.name == "" ==> s == f.message
    ensures f.name != "" && f.message == "" ==> s == f.name
    ensures f.name != "" && f.message != "" ==> s == f.name + ": " + f.message
  {
    if f.name == "" then f.message
    else if f.message == "" then f.name
    else f.name + ": " + f.message
  }

  /** What `stmt.run()` reports. */
  datatype RunInfo = RunInfo(changes: int, lastInsertRowid: int)

  /** A prepared statement: what each of its three calls would yield. */
  datatype Statement = Statement(
    rows: Result<seq<Row>, Fault>,       // stmt.all()
    columns: Result<seq<string>, Fault>, // stmt.columns().map(c => c.name)
    run: Result<RunInfo, Fault>)         // stmt.run()

  /** A row of `sqlite_master`, reduced to its `type` and `name` columns. */
  datatype CatalogEntry = CatalogEntry(kind: string, name: string)

  datatype OpenOptions = OpenOptions(readonly: bool, fileMustExist: bool)

  datatype Database = Database(
    fileExists: bool,
    missingFault: Fault,                       // raised when opening a file that is not there
    openFault: Option<Fault>,                  // a present file that cannot be opened (locked, corrupt, permissions)
    prepare: string -> Result<Statement, Fault>,
    catalog: seq<CatalogEntry>,
    tables: map<string, seq<Row>>,
    readFault: Option<Fault>,                  // raised by any read of `sqlite_master`
    tableFault: Option<Fault>,                 // raised by reading a table's rows (a corrupt page, a busy
                                               // database, a virtual table whose module is missing)
    identifierFault: Fault,                    // the syntax error for a quoted name that contains a double quote
    closeFault: Option<Fault>)                 // raised by db.close()

  /** Every open the application's routes perform is read-only or demands an
      existing file, so a missing file is refused and never created. */
  function OpenFault(db: Database): (f: Option<Fault>)
    ensures !db.fileExists ==> f == Some(db.missingFault)
  {
    if !db.fileExists then Some(db.missingFault) else db.openFault
  }

  /** The rows of a table; a name without contents reads as an empty table. */
  function TableRows(db: Database, name: string): seq<Row> {
    if name in db.tables then db.tables[name] else []
  }

  function Take<T>(s: seq<T>, n: nat): (r: seq<T>)
    ensures |r| <= n && |r| <= |s|
    ensures r == s[..|r|]
    ensures |s| <= n ==> r == s
    ensures |s| > n ==> |r| == n
  {
    if |s| <= n then s else s[..n]
  }

  /** A call through the driver, as it appears in a handle's log. */
  datatype Call =
    | Open(options: OpenOptions)
    | Prepare(sql: string)
    | All
    | Get
    | Columns
    | Run
    | Close

  /** How many times `c` occurs in `calls`. */
  function Count(calls: seq<Call>, c: Call): (n: nat)
    ensures n <= |calls|
    ensures n == 0 <==> c !in calls
  {
    if calls == [] then 0
    else (if calls[0] == c then 1 else 0) + Count(calls[1..], c)
  }

  lemma CountAppend(a: seq<Call>, b: seq<Call>, c: Call)
    ensures Count(a + b, c) == Count(a, c) + Count(b, c)
  {
    if a == [] {
      assert a + b == b;
    } else {
      assert (a + b)[1..] == a[1..] + b;
      CountAppend(a[1..], b, c);
    }
  }

  /** An open handle. `calls` is the log of everything done through it,
      starting with the open itself. */
  class Connection {
    const db: Database
    var closed: bool
    var calls: seq<Call>

    constructor (db: Database, options: OpenOptions)
      ensures this.db == db && !closed && calls == [Open(options)]
    {
      this.db := db;
      closed := false;
      calls := [Open(options)];
    }

    /** `db.prepare(sql)`. */
    method Prepare(sql: string) returns (r: Result<Statement, Fault>)
      requires !closed
      modifies this
      ensures !closed && calls == old(calls) + [Call.Prepare(sql)]
      ensures r == db.prepare(sql)
    {
      r := db.prepare(sql);
      calls := calls + [Call.Prepare(sql)];
    }

    /** `stmt.all()`. */
    method All(stmt: Statement) returns (r: Result<seq<Row>, Fault>)
      requires !closed
      modifies this
      ensures !closed && calls == old(calls) + [Call.All]
      ensures r == stmt.rows
    {
      r := stmt.rows;
      calls := calls + [Call.All];
    }

    /** `stmt.columns()`, reduced to the names. */
    method Columns(stmt: Statement) returns (r: Result<seq<string>, Fault>)
      requires !closed
      modifies this
      ensures !closed && calls == old(calls) + [Call.Columns]
      ensures r == stmt.columns
    {
      r := stmt.columns;
      calls := calls + [Call.Columns];
    }

    /** `stmt.run()`. */
    method Run(stmt: Statement) returns (r: Result<RunInfo, Fault>)
      requires !closed
      modifies this
      ensures !closed && calls == old(calls) + [Call.Run]
      ensures r == stmt.run
    {
      r := stmt.run;
      calls := calls + [Call.Run];
    }

    /** `db.prepare(sql).all()` or `.get()` on a statement over `sqlite_master`:
        the engine reads the whole catalog; the statement's own filtering is
        evaluated by its caller. */
    method ReadCatalog(sql: string, step: Call) returns (r: Result<seq<CatalogEntry>, Fault>)
      requires !closed && (step == Call.All || step == Call.Get)
      modifies this
      ensures !closed && calls == old(calls) + [Call.Prepare(sql), step]
      ensures r == if db.readFault.Some? then Failure(db.readFault.value) else Success(db.catalog)
    {
      r := if db.readFault.Some? then Failure(db.readFault.value) else Success(db.catalog);
      calls := calls + [Call.Prepare(sql), step];
    }

    /** `db.prepare(sql).all()` where `sql` is `SELECT * FROM "name" LIMIT limit`:
        a double quote inside the name ends the quoted identifier early and is a
        syntax error raised by the prepare, so `.all()` is never called and
        the log ends at the prepare; otherwise `.all()` is called and yields
        the first `limit` rows in table order, or the table-read fault. */
    method ReadTable(sql: string, name: string, limit: nat) returns (r: Result<seq<Row>, Fault>)
      requires !closed
      modifies this
      ensures !closed && calls == old(calls) + [Call.Prepare(sql)] + (if '"' in name then [] else [Call.All])
      ensures r == if '"' in name then Failure(db.identifierFault)
                   else if db.tableFault.Some? then Failure(db.tableFault.value)
                   else Success(Take(TableRows(db, name), limit))
    {
      calls := calls + [Call.Prepare(sql)];
      if '"' in name {
        r := Failure(db.identifierFault);
        return;
      }
      r := if db.tableFault.Some? then Failure(db.tableFault.value)
           else Success(Take(TableRows(db, name), limit));
      calls := calls + [Call.All];
    }

    /** `db.close()`; the handle is closed whether or not it reports a fault. */
    method Close() returns (fault: Option<Fault>)
      modifies this
      ensures closed && calls == old(calls) + [Call.Close]
      ensures fault == db.closeFault
    {
      fault := db.closeFault;
      closed := true;
      calls := calls + [Call.Close];
    }
  }

  /** `new Database(path, options)`: a fresh open handle, or the fault the driver throws. */
  method Connect(db: Database, options: OpenOptions) returns (r: Result<Connection, Fault>)
    ensures r.Failure? <==> OpenFault(db).Some?
    ensures r.Failure? ==> r.error == OpenFault(db).value
    ensures r.Success? ==> fresh(r.value) && r.value.db == db && !r.value.closed && r.value.calls == [Open(options)]
  {
    var f := OpenFault(db);
    if f.Some? {
      r := Failure(f.value);
    } else {
      var c := new Connection(db, options);
      r := Success(c);
    }
  }
}
