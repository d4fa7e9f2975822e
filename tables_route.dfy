/**
  The table listing, `GET /api/tables`: a missing database file is reported
  as "not initialized" without being opened (and so never created); otherwise
  the file is opened read-only and the user tables are listed by name.
 */
module TablesRoute {
  import opened Wrappers
  import opened Driver
  import opened Catalog

  const NotInitialized := "Database not initialized. Run /api/init-db first."
  /** The listing statement, as the route's template literal writes it. */
  const ListSql := "SELECT name FROM sqlite_master\n           WHERE type='table' AND name NOT LIKE 'sqlite_%'\n           ORDER BY name"

  /** `{ readonly: true, fileMustExist: true }`. */
  const Options := OpenOptions(true, true)

  datatype Body =
    | Listing(tables: seq<string>, message: Option<string>)
    | Error(error: string)

  datatype Reply = Reply(status: int, body: Body)

  function DbError(f: Fault): string { "DB Error: " + Describe(f) }

  /** The rows the listing statement yields: one `{ name }` object per name. */
  function NameRows(names: seq<string>): (rows: seq<Row>)
    ensures |rows| == |names|
    ensures forall i :: 0 <= i < |rows| ==> rows[i] == [("name", Text(names[i]))]
  {
    seq(|names|, i requires 0 <= i < |names| => [("name", Text(names[i]))])
  }

  /** `r.name` of a row; a field that is missing or not text has no name. */
  function RowName(row: Row): string {
    match Lookup(row, "name")
    case Some(Text(s)) => s
    case _ => ""
  }

  /** `rows.map((r) => r.name)`. */
  function RowNames(rows: seq<Row>): (names: seq<string>)
    ensures |names| == |rows|
    ensures forall i :: 0 <= i < |rows| ==> names[i] == RowName(rows[i])
  {
    seq(|rows|, i requires 0 <= i < |rows| => RowName(rows[i]))
  }

  /** Mapping the rows back to names recovers the names, in the same order. */
  lemma RowNamesOfNameRows(names: seq<string>)
    ensures RowNames(NameRows(names)) == names
  {
    var rows := NameRows(names);
    forall i | 0 <= i < |names| ensures RowName(rows[i]) == names[i] {
      assert Keys(rows[i]) == ["name"];
    }
  }

  /** What the route answers (app/api/tables/route.ts, lines 7-57). */
  function Respond(db: Database): Reply {
    if !db.fileExists then Reply(200, Listing([], Some(NotInitialized)))
    else match OpenFault(db)
      case Some(f) => Reply(500, Error(DbError(f)))
      case None =>
        match db.readFault
        case Some(f) => Reply(500, Error(DbError(f)))
        case None => Reply(200, Listing(RowNames(NameRows(ListNames(db.catalog))), None))
  }

  /** The route call by call. The handle is closed in `finally` whenever it was
      opened, and a fault from `close()` is swallowed. */
  method Get(db: Database) returns (reply: Reply, calls: seq<Call>)
    ensures reply == Respond(db)
    ensures calls != [] <==> db.fileExists && OpenFault(db).None?
    ensures calls != [] ==> calls == [Open(Options), Call.Prepare(ListSql), Call.All, Call.Close]
  {
    calls := [];
    if !db.fileExists {
      return Reply(200, Listing([], Some(NotInitialized))), calls;
    }
    var handle: Option<Connection> := None;
    var connected := Connect(db, Options);
    if connected.Failure? {
      reply := Reply(500, Error(DbError(connected.error)));
    } else {
      var conn := connected.value;
      handle := Some(conn);
      var catalog := conn.ReadCatalog(ListSql, Call.All);
      if catalog.Failure? {
        reply := Reply(500, Error(DbError(catalog.error)));
      } else {
        var tables := RowNames(NameRows(ListNames(catalog.value)));
        reply := Reply(200, Listing(tables, None));
      }
    }
    // finally
    if handle.Some? {
      var conn := handle.value;
      var closeFault := conn.Close();
      calls := conn.calls;
    }
  }

  /** A missing file is answered with an empty listing and a hint, and nothing
      is opened, so no empty database is created. */
  lemma MissingFileNotInitialized(db: Database)
    requires !db.fileExists
    ensures Respond(db) == Reply(200, Listing([], Some(NotInitialized)))
  {
  }

  /** A successful listing from an existing file holds exactly the user tables,
      each as often as the catalog has it, in ascending order of name. */
  lemma ListingIsUserTables(db: Database)
    requires db.fileExists && Respond(db).status == 200
    ensures var tables := Respond(db).body.tables;
      && Respond(db).body == Listing(tables, None)
      && tables == ListNames(db.catalog)
      && Sorted(tables)
      && multiset(tables) == multiset(UserTableNames(db.catalog))
      && (forall n :: n in tables <==> exists e :: e in db.catalog && e.kind == "table" && e.name == n && !Like(n, "sqlite_%"))
      && (forall n :: multiset(tables)[n] ==
                      if Like(n, "sqlite_%") then 0 else multiset(db.catalog)[CatalogEntry("table", n)])
  {
    RowNamesOfNameRows(ListNames(db.catalog));
    ListNamesMeaning(db.catalog);
  }

  /** Every reply is 200 or 500; it is 500 exactly when the existing file cannot
      be opened or read, and a 200 reply always carries a `tables` array. */
  lemma StatusTaxonomy(db: Database)
    ensures Respond(db).status == 200 <==> Respond(db).body.Listing?
    ensures Respond(db).status == 500 <==> db.fileExists && (db.openFault.Some? || db.readFault.Some?)
    ensures Respond(db).status == 200 || Respond(db).status == 500
  {
  }

  /** A failure while closing never changes the reply. */
  lemma CloseFaultIgnored(db: Database, f: Option<Fault>)
    ensures Respond(db.(closeFault := f)) == Respond(db)
  {
  }
}
