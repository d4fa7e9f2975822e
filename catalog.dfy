/**
  The two catalog statements the routes send to `sqlite_master`:

    SELECT name FROM sqlite_master WHERE type='table' AND name NOT LIKE 'sqlite_%' ORDER BY name
    SELECT name FROM sqlite_master WHERE type='table' AND name = ?

  evaluated over the catalog, with SQLite's `LIKE` (ASCII case-insensitive,
  `_` one character, `%` any run) and the BINARY collation of `ORDER BY`
  and `=` (code-point order and exact equality).
 */
module Catalog {
  import opened JsText
  import opened Driver

  /** SQLite's `LIKE` without an `ESCAPE` clause. */
  function Like(s: string, p: string): bool
    decreases |s| + |p|
  {
    if p == [] then s == []
    else if p[0] == '%' then Like(s, p[1..]) || (s != [] && Like(s[1..], p))
    else s != [] && (p[0] == '_' || AsciiLower(s[0]) == AsciiLower(p[0])) && Like(s[1..], p[1..])
  }

  /** `%` matches every text. */
  lemma {:induction false} LikePercent(s: string)
    ensures Like(s, "%")
  {
    if s != [] {
      LikePercent(s[1..]);
    }
  }

  predicate NoWildcards(lit: string) {
    forall i :: 0 <= i < |lit| ==> lit[i] != '%' && lit[i] != '_'
  }

  /** `s` begins with `lit`, ignoring ASCII case. */
  predicate StartsIgnoringCase(s: string, lit: string) {
    |lit| <= |s| && forall i :: 0 <= i < |lit| ==> AsciiLower(s[i]) == AsciiLower(lit[i])
  }

  lemma StartsIgnoringCaseCons(s: string, lit: string)
    requires s != [] && lit != []
    ensures StartsIgnoringCase(s, lit) <==>
      AsciiLower(s[0]) == AsciiLower(lit[0]) && StartsIgnoringCase(s[1..], lit[1..])
  {
    if AsciiLower(s[0]) == AsciiLower(lit[0]) && StartsIgnoringCase(s[1..], lit[1..]) {
      forall i | 0 < i < |lit| ensures AsciiLower(s[i]) == AsciiLower(lit[i]) {
        assert s[1..][i - 1] == s[i] && lit[1..][i - 1] == lit[i];
      }
    }
  }

  /** A pattern that begins with a literal matches exactly the texts that begin
      with that literal, ignoring ASCII case, and whose remainder matches the
      rest of the pattern. */
  lemma {:induction false} LikeLiteralPrefix(s: string, lit: string, rest: string)
    requires NoWildcards(lit)
    ensures Like(s, lit + rest) <==> StartsIgnoringCase(s, lit) && Like(s[|lit|..], rest)
  {
    if lit == [] {
      assert lit + rest == rest;
    } else {
      assert (lit + rest)[0] == lit[0];
      assert (lit + rest)[1..] == lit[1..] + rest;
      if s != [] {
        LikeLiteralPrefix(s[1..], lit[1..], rest);
        StartsIgnoringCaseCons(s, lit);
        if |lit| <= |s| {
          assert s[1..][|lit| - 1..] == s[|lit|..];
        }
      }
    }
  }

  const SqlitePrefix := "sqlite"

  /** The pattern of the listing: a name is hidden exactly when it is at least
      seven characters long and begins with "sqlite" in any ASCII case; the
      `_` is a wildcard, so "sqlitex" is hidden as well as "sqlite_sequence". */
  lemma SqlitePattern(name: string)
    ensures Like(name, "sqlite_%") <==>
      |name| >= 7 && forall i :: 0 <= i < 6 ==> AsciiLower(name[i]) == SqlitePrefix[i]
  {
    assert "sqlite_%" == SqlitePrefix + "_%";
    LikeLiteralPrefix(name, SqlitePrefix, "_%");
    if |name| >= 7 {
      LikePercent(name[7..]);
      assert name[6..][1..] == name[7..];
    }
  }

  lemma SqlitePatternExamples()
    ensures Like("sqlite_sequence", "sqlite_%")
    ensures Like("SQLite_stat1", "sqlite_%")
    ensures Like("sqlitex", "sqlite_%")
    ensures !Like("sqlite", "sqlite_%")
    ensures !Like("students", "sqlite_%")
  {
    SqlitePattern("sqlite_sequence");
    SqlitePattern("SQLite_stat1");
    SqlitePattern("sqlitex");
    SqlitePattern("sqlite");
    SqlitePattern("students");
    assert AsciiLower("students"[1]) != SqlitePrefix[1];
  }

  /** An entry the listing shows: a table whose name is not internal. */
  predicate Listed(e: CatalogEntry) {
    e.kind == "table" && !Like(e.name, "sqlite_%")
  }

  /** The names of listed entries, in catalog order (the `WHERE` clause). */
  function UserTableNames(catalog: seq<CatalogEntry>): (names: seq<string>)
    ensures |names| <= |catalog|
    ensures forall n :: n in names <==> exists e :: e in catalog && Listed(e) && e.name == n
  {
    if catalog == [] then []
    else
      var rest := UserTableNames(catalog[1..]);
      assert forall e :: e in catalog <==> e == catalog[0] || e in catalog[1..];
      if Listed(catalog[0]) then [catalog[0].name] + rest else rest
  }

  /** Each user table is named as often as the catalog holds a 'table' entry
      for it, and an internal name never. */
  lemma {:induction false} UserTableCount(catalog: seq<CatalogEntry>, n: string)
    ensures multiset(UserTableNames(catalog))[n] ==
            if Like(n, "sqlite_%") then 0 else multiset(catalog)[CatalogEntry("table", n)]
  {
    if catalog != [] {
      UserTableCount(catalog[1..], n);
      assert catalog == [catalog[0]] + catalog[1..];
    }
  }

  /** BINARY collation: code-point order, a prefix first. */
  predicate LexLe(a: string, b: string) {
    a == [] || (b != [] && (a[0] < b[0] || (a[0] == b[0] && LexLe(a[1..], b[1..]))))
  }

  lemma {:induction false} LexLeReflexive(a: string)
    ensures LexLe(a, a)
  {
    if a != [] {
      LexLeReflexive(a[1..]);
    }
  }

  lemma {:induction false} LexLeTotal(a: string, b: string)
    ensures LexLe(a, b) || LexLe(b, a)
  {
    if a != [] && b != [] && a[0] == b[0] {
      LexLeTotal(a[1..], b[1..]);
    }
  }

  lemma {:induction false} LexLeAntisymmetric(a: string, b: string)
    requires LexLe(a, b) && LexLe(b, a)
    ensures a == b
  {
    if a != [] && b != [] {
      LexLeAntisymmetric(a[1..], b[1..]);
      assert a == [a[0]] + a[1..];
      assert b == [b[0]] + b[1..];
    }
  }

  lemma {:induction false} LexLeTransitive(a: string, b: string, c: string)
    requires LexLe(a, b) && LexLe(b, c)
    ensures LexLe(a, c)
  {
    if a != [] && b != [] && c != [] && a[0] == b[0] && b[0] == c[0] {
      LexLeTransitive(a[1..], b[1..], c[1..]);
    }
  }

  predicate Sorted(s: seq<string>) {
    forall i, j :: 0 <= i < j < |s| ==> LexLe(s[i], s[j])
  }

  /** `x` before everything in `s`. */
  predicate Below(x: string, s: seq<string>) {
    forall i :: 0 <= i < |s| ==> LexLe(x, s[i])
  }

  /** Everything in a sorted list is at least its head. */
  lemma HeadBelow(s: seq<string>)
    requires Sorted(s) && s != []
    ensures Below(s[0], s[1..])
  {
    forall i | 0 <= i < |s[1..]| ensures LexLe(s[0], s[1..][i]) {
      assert s[1..][i] == s[i + 1];
    }
  }

  /** A head at most everything in a sorted tail makes a sorted list. */
  lemma SortedCons(h: string, t: seq<string>)
    requires Sorted(t) && Below(h, t)
    ensures Sorted([h] + t)
  {
    var r := [h] + t;
    forall i, j | 0 <= i < j < |r| ensures LexLe(r[i], r[j]) {
      assert r[j] == t[j - 1];
      if i > 0 {
        assert r[i] == t[i - 1];
      }
    }
  }

  /** A sorted list is above anything at most its head. */
  lemma BelowSorted(x: string, s: seq<string>)
    requires Sorted(s) && s != [] && LexLe(x, s[0])
    ensures Below(x, s)
  {
    forall i | 0 <= i < |s| ensures LexLe(x, s[i]) {
      if i > 0 {
        LexLeTransitive(x, s[0], s[i]);
      }
    }
  }

  /** One step of insertion sort: `x` goes before the first name it is at most. */
  function Insert(x: string, s: seq<string>): (r: seq<string>)
    ensures multiset(r) == multiset(s) + multiset{x}
  {
    if s == [] then [x]
    else if LexLe(x, s[0]) then [x] + s
    else
      assert s == [s[0]] + s[1..];
      [s[0]] + Insert(x, s[1..])
  }

  /** A lower bound of the list and of `x` bounds the list after inserting `x`. */
  lemma InsertBelow(y: string, x: string, s: seq<string>)
    requires Below(y, s) && LexLe(y, x)
    ensures Below(y, Insert(x, s))
  {
    var r := Insert(x, s);
    forall i | 0 <= i < |r| ensures LexLe(y, r[i]) {
      assert r[i] in multiset(r);
      if r[i] != x {
        assert r[i] in multiset(s);
        var k :| 0 <= k < |s| && s[k] == r[i];
      }
    }
  }

  /** Inserting into a sorted list keeps it sorted. */
  lemma {:induction false} InsertSorted(x: string, s: seq<string>)
    requires Sorted(s)
    ensures Sorted(Insert(x, s))
  {
    if s != [] {
      if LexLe(x, s[0]) {
        BelowSorted(x, s);
        SortedCons(x, s);
      } else {
        LexLeTotal(x, s[0]);
        HeadBelow(s);
        TailMultiset(s);
        InsertSorted(x, s[1..]);
        InsertBelow(s[0], x, s[1..]);
        SortedCons(s[0], Insert(x, s[1..]));
      }
    }
  }

  /** `ORDER BY name`: the names in ascending BINARY order, as a multiset unchanged. */
  function SortNames(s: seq<string>): (r: seq<string>)
    ensures Sorted(r)
    ensures multiset(r) == multiset(s)
  {
    if s == [] then []
    else
      var t := SortNames(s[1..]);
      InsertSorted(s[0], t);
      assert s == [s[0]] + s[1..];
      Insert(s[0], t)
  }

  /** The listing statement: the user tables, sorted by name. */
  function ListNames(catalog: seq<CatalogEntry>): seq<string> {
    SortNames(UserTableNames(catalog))
  }

  /** The listing holds exactly the tables whose names are not internal, each
      as often as the catalog has it, in ascending order. */
  lemma ListNamesMeaning(catalog: seq<CatalogEntry>)
    ensures Sorted(ListNames(catalog))
    ensures multiset(ListNames(catalog)) == multiset(UserTableNames(catalog))
    ensures forall n :: n in ListNames(catalog) <==> exists e :: e in catalog && e.kind == "table" && e.name == n && !Like(n, "sqlite_%")
    ensures |ListNames(catalog)| <= |catalog|
    ensures forall n :: multiset(ListNames(catalog))[n] ==
                        if Like(n, "sqlite_%") then 0 else multiset(catalog)[CatalogEntry("table", n)]
  {
    forall n {
      UserTableCount(catalog, n);
    }
    var names := UserTableNames(catalog);
    var r := ListNames(catalog);
    assert |r| == |multiset(r)| == |multiset(names)| == |names|;
    forall n ensures n in r <==> n in names {
      assert n in r <==> n in multiset(r);
      assert n in names <==> n in multiset(names);
    }
  }

  /** The first of a sorted arrangement is its least element. */
  lemma SortedHeads(a: seq<string>, b: seq<string>)
    requires Sorted(a) && Sorted(b) && multiset(a) == multiset(b) && a != []
    ensures b != [] && a[0] == b[0]
  {
    assert a[0] in multiset(b);
    assert b != [];
    assert b[0] in multiset(a);
    var i :| 0 <= i < |b| && b[i] == a[0];
    var j :| 0 <= j < |a| && a[j] == b[0];
    LexLeReflexive(a[0]);
    if i > 0 { assert LexLe(b[0], b[i]); }
    if j > 0 { assert LexLe(a[0], a[j]); }
    LexLeAntisymmetric(a[0], b[0]);
  }

  lemma TailMultiset(a: seq<string>)
    requires a != []
    ensures Sorted(a) ==> Sorted(a[1..])
    ensures multiset(a[1..]) == multiset(a) - multiset{a[0]}
  {
    assert a == [a[0]] + a[1..];
  }

  /** A sorted arrangement of a collection of names is unique: the listing could
      not have come out in any other order. */
  lemma {:induction false} SortedUnique(a: seq<string>, b: seq<string>)
    requires Sorted(a) && Sorted(b) && multiset(a) == multiset(b)
    ensures a == b
  {
    if a != [] {
      SortedHeads(a, b);
      TailMultiset(a);
      TailMultiset(b);
      SortedUnique(a[1..], b[1..]);
      assert a == [a[0]] + a[1..];
      assert b == [b[0]] + b[1..];
    } else {
      assert |b| == |multiset(b)| == 0;
    }
  }

  /** The existence check of the preview: a catalog entry of kind table whose
      name equals the requested one exactly. Internal tables count. */
  predicate TableExists(catalog: seq<CatalogEntry>, name: string) {
    exists i :: 0 <= i < |catalog| && catalog[i].kind == "table" && catalog[i].name == name
  }

  /** Unlike the listing, the existence check does not hide internal tables:
      "sqlite_sequence" is not listed but is found. */
  lemma InternalTableFound()
    ensures var c := [CatalogEntry("table", "sqlite_sequence")];
      ListNames(c) == [] && TableExists(c, "sqlite_sequence")
  {
    var c := [CatalogEntry("table", "sqlite_sequence")];
    SqlitePatternExamples();
    assert c[1..] == [];
    assert UserTableNames(c) == [];
    assert c[0].kind == "table" && c[0].name == "sqlite_sequence";
  }

  /** Every listed table passes the preview's existence check. */
  lemma ListedTablesExist(catalog: seq<CatalogEntry>, name: string)
    requires name in ListNames(catalog)
    ensures TableExists(catalog, name)
  {
    ListNamesMeaning(catalog);
    var e :| e in catalog && e.kind == "table" && e.name == name && !Like(name, "sqlite_%");
    var i :| 0 <= i < |catalog| && catalog[i] == e;
  }
}
