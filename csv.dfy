/**
  The practice page's CSV export (`exportToCSV`), close to section 2 of
  RFC 4180 with three differences: records are separated by LF, the header is
  written without escaping, and a carriage return does not make a field
  quoted. A reader for that format is defined beside the writer, and the
  writer is proved to be its inverse.
 */
module Csv {
  import opened Wrappers
  import opened JsText
  import opened Driver

  /** `.replace(/"/g, '""')`. */
  function Escape(s: string): (e: string)
    ensures |e| >= |s|
    ensures '"' in s <==> '"' in e
    ensures ',' in s <==> ',' in e
    ensures '\n' in s <==> '\n' in e
    ensures '"' !in s ==> e == s
  {
    if s == [] then []
    else
      var rest := Escape(s[1..]);
      assert s == [s[0]] + s[1..];
      if s[0] == '"' then "\"\"" + rest else [s[0]] + rest
  }

  /** `/[,"\n]/.test(escaped)`. */
  predicate NeedsQuotes(s: string) {
    ',' in s || '"' in s || '\n' in s
  }

  /** One exported field, from the text of the value. */
  function Field(v: string): string {
    var e := Escape(v);
    if NeedsQuotes(e) then "\"" + e + "\"" else e
  }

  /** `String(value ?? '')` for a cell: a missing key and SQL NULL give empty text. */
  function CellText(v: Option<Value>): string {
    match v
    case None => ""
    case Some(Null) => ""
    case Some(Integer(n)) => IntText(n)
    case Some(Text(s)) => s
  }

  /** `Array.prototype.join`. */
  function Join(sep: string, parts: seq<string>): string {
    if parts == [] then ""
    else if |parts| == 1 then parts[0]
    else parts[0] + sep + Join(sep, parts[1..])
  }

  /** The values of a row under the given columns, in column order. */
  function Cells(columns: seq<string>, row: Row): (cells: seq<string>)
    ensures |cells| == |columns|
  {
    seq(|columns|, i requires 0 <= i < |columns| => CellText(Lookup(row, columns[i])))
  }

  function Fields(values: seq<string>): (fs: seq<string>)
    ensures |fs| == |values|
  {
    seq(|values|, i requires 0 <= i < |values| => Field(values[i]))
  }

  /** `result.columns?.join(',') || ''`. */
  function Header(columns: Option<seq<string>>): string {
    match columns
    case None => ""
    case Some(cs) => Join(",", cs)
  }

  /** One data line; without columns there are no fields and the line is empty. */
  function Line(columns: Option<seq<string>>, row: Row): string {
    match columns
    case None => ""
    case Some(cs) => Join(",", Fields(Cells(cs, row)))
  }

  function Document(columns: Option<seq<string>>, rows: seq<Row>): string {
    Join("\n", [Header(columns)] + seq(|rows|, i requires 0 <= i < |rows| => Line(columns, rows[i])))
  }

  /** The export: nothing when there are no rows, else the document. */
  function Export(columns: Option<seq<string>>, rows: Option<seq<Row>>): (csv: Option<string>)
    ensures csv.None? <==> rows.None? || rows.value == []
  {
    if rows.None? || rows.value == [] then None else Some(Document(columns, rows.value))
  }

  // ---------------------------------------------------------------------------
  // A reader for the exported format.

  /** The inside of a quoted field, after its opening quote: `""` is a quote,
      a lone `"` closes the field. */
  function ParseQuoted(s: string): (r: Option<(string, string)>)
    ensures r.Some? ==> |r.value.1| < |s|
  {
    if s == [] then None
    else if s[0] == '"' then
      if |s| >= 2 && s[1] == '"' then
        match ParseQuoted(s[2..])
        case None => None
        case Some((v, rest)) => Some(("\"" + v, rest))
      else Some(([], s[1..]))
    else
      match ParseQuoted(s[1..])
      case None => None
      case Some((v, rest)) => Some(([s[0]] + v, rest))
  }

  /** An unquoted field runs up to the next comma or line feed. */
  function ParseBare(s: string): (r: (string, string))
    ensures r.0 + r.1 == s
    ensures r.1 == [] || r.1[0] == ',' || r.1[0] == '\n'
  {
    if s == [] || s[0] == ',' || s[0] == '\n' then ([], s)
    else
      var (v, rest) := ParseBare(s[1..]);
      assert s == [s[0]] + s[1..];
      ([s[0]] + v, rest)
  }

  function ParseField(s: string): (r: Option<(string, string)>)
    ensures r.Some? ==> |r.value.1| <= |s|
  {
    if s != [] && s[0] == '"' then ParseQuoted(s[1..]) else Some(ParseBare(s))
  }

  /** One record: its fields, and the text after its line feed, or nothing
      when the record ends the text. */
  function ParseRecord(s: string): (r: Option<(seq<string>, Option<string>)>)
    ensures r.Some? ==> |r.value.0| >= 1
    ensures r.Some? && r.value.1.Some? ==> |r.value.1.value| < |s|
    decreases |s|
  {
    match ParseField(s)
    case None => None
    case Some((f, rest)) =>
      if rest == [] then Some(([f], None))
      else if rest[0] == '\n' then Some(([f], Some(rest[1..])))
      else if rest[0] == ',' then
        match ParseRecord(rest[1..])
        case None => None
        case Some((fs, next)) => Some(([f] + fs, next))
      else None
  }

  function ParseDocument(s: string): Option<seq<seq<string>>>
    decreases |s|
  {
    match ParseRecord(s)
    case None => None
    case Some((fs, None)) => Some([fs])
    case Some((fs, Some(next))) =>
      match ParseDocument(next)
      case None => None
      case Some(rs) => Some([fs] + rs)
  }

  // ---------------------------------------------------------------------------
  // The writer and the reader are inverse.

  /** Text that may follow a field: nothing, a separator, or a line feed. */
  predicate Boundary(t: string) {
    t == [] || t[0] == ',' || t[0] == '\n'
  }

  /** A character other than a quote is copied into the value. */
  lemma ParseQuotedPlain(c: char, u: string)
    requires c != '"'
    ensures ParseQuoted([c] + u) == match ParseQuoted(u)
      case None => None
      case Some((v, rest)) => Some(([c] + v, rest))
  {
    assert ([c] + u)[1..] == u;
  }

  /** A doubled quote is read as one quote. */
  lemma ParseQuotedDoubled(u: string)
    ensures ParseQuoted("\"\"" + u) == match ParseQuoted(u)
      case None => None
      case Some((v, rest)) => Some(("\"" + v, rest))
  {
    assert ("\"\"" + u)[2..] == u;
  }

  lemma Regroup(p: string, e: string, q: string, t: string)
    ensures p + e + q + t == p + (e + q + t)
  {
  }

  lemma {:induction false} QuotedRoundTrip(v: string, t: string)
    requires t == [] || t[0] != '"'
    ensures ParseQuoted(Escape(v) + "\"" + t) == Some((v, t))
  {
    if v == [] {
      assert Escape(v) + "\"" + t == "\"" + t;
      assert ("\"" + t)[1..] == t;
    } else {
      var e := Escape(v[1..]);
      var u := e + "\"" + t;
      QuotedRoundTrip(v[1..], t);
      assert v == [v[0]] + v[1..];
      if v[0] == '"' {
        assert Escape(v) == "\"\"" + e;
        Regroup("\"\"", e, "\"", t);
        ParseQuotedDoubled(u);
      } else {
        assert Escape(v) == [v[0]] + e;
        Regroup([v[0]], e, "\"", t);
        ParseQuotedPlain(v[0], u);
      }
    }
  }

  lemma ParseBareStep(c: char, u: string)
    requires c != ',' && c != '\n'
    ensures ParseBare([c] + u) == ([c] + ParseBare(u).0, ParseBare(u).1)
  {
    assert ([c] + u)[1..] == u;
  }

  lemma {:induction false} BareRoundTrip(v: string, t: string)
    requires ',' !in v && '\n' !in v && Boundary(t)
    ensures ParseBare(v + t) == (v, t)
  {
    if v != [] {
      BareRoundTrip(v[1..], t);
      assert v + t == [v[0]] + (v[1..] + t);
      ParseBareStep(v[0], v[1..] + t);
      assert v == [v[0]] + v[1..];
    } else {
      assert v + t == t;
    }
  }

  lemma QuotedFieldRoundTrip(v: string, t: string)
    requires Boundary(t) && NeedsQuotes(Escape(v))
    ensures ParseField(Field(v) + t) == Some((v, t))
  {
    var e := Escape(v);
    QuotedRoundTrip(v, t);
    assert Field(v) == "\"" + e + "\"";
    Regroup("\"", e, "\"", t);
    var u := e + "\"" + t;
    assert ("\"" + u)[1..] == u;
  }

  lemma BareFieldRoundTrip(v: string, t: string)
    requires Boundary(t) && !NeedsQuotes(Escape(v))
    ensures ParseField(Field(v) + t) == Some((v, t))
  {
    assert Field(v) == v;
    BareRoundTrip(v, t);
    if v != [] {
      assert (v + t)[0] == v[0];
    } else {
      assert v + t == t;
    }
  }

  /** Reading an exported field gives back the value's text, and stops at the
      boundary that follows it. */
  lemma FieldRoundTrip(v: string, t: string)
    requires Boundary(t)
    ensures ParseField(Field(v) + t) == Some((v, t))
  {
    if NeedsQuotes(Escape(v)) {
      QuotedFieldRoundTrip(v, t);
    } else {
      BareFieldRoundTrip(v, t);
    }
  }

  lemma JoinCons(sep: string, parts: seq<string>)
    requires |parts| >= 2
    ensures Join(sep, parts) == parts[0] + sep + Join(sep, parts[1..])
  {
  }

  /** Reading an exported record gives back its values, one field per value. */
  /** A field followed by a separator: the record goes on with the rest. */
  lemma ParseRecordSeparator(v: string, rest: string)
    ensures ParseRecord(Field(v) + ("," + rest)) == match ParseRecord(rest)
      case None => None
      case Some((fs, next)) => Some(([v] + fs, next))
  {
    FieldRoundTrip(v, "," + rest);
    assert ("," + rest)[1..] == rest;
  }

  /** A field followed by the end of the text or by a line feed: the record ends. */
  lemma ParseRecordLast(v: string, t: string)
    requires t == [] || t[0] == '\n'
    ensures ParseRecord(Field(v) + t) == Some(([v], if t == [] then None else Some(t[1..])))
  {
    FieldRoundTrip(v, t);
  }

  /** Reading an exported record gives back its values, one field per value. */
  lemma {:induction false} RecordRoundTrip(values: seq<string>, t: string)
    requires |values| >= 1 && (t == [] || t[0] == '\n')
    ensures ParseRecord(Join(",", Fields(values)) + t) == Some((values, if t == [] then None else Some(t[1..])))
  {
    var fs := Fields(values);
    if |values| == 1 {
      ParseRecordLast(values[0], t);
      assert Join(",", fs) == Field(values[0]);
      assert [values[0]] == values;
    } else {
      RecordRoundTrip(values[1..], t);
      JoinFieldsCons(values, t);
      ParseRecordSeparator(values[0], Join(",", Fields(values[1..])) + t);
      assert [values[0]] + values[1..] == values;
    }
  }

  lemma JoinFieldsCons(values: seq<string>, t: string)
    requires |values| >= 2
    ensures Join(",", Fields(values)) + t == Field(values[0]) + ("," + (Join(",", Fields(values[1..])) + t))
  {
    var fs := Fields(values);
    var j := Join(",", fs[1..]);
    assert fs[1..] == Fields(values[1..]);
    JoinCons(",", fs);
    Regroup(fs[0], ",", j, t);
    assert "," + j + t == "," + (j + t);
  }

  function Encode(records: seq<seq<string>>): string {
    Join("\n", seq(|records|, i requires 0 <= i < |records| => Join(",", Fields(records[i]))))
  }

  lemma EncodeCons(records: seq<seq<string>>)
    requires |records| >= 1
    ensures |records| == 1 ==> Encode(records) == Join(",", Fields(records[0]))
    ensures |records| >= 2 ==> Encode(records) == Join(",", Fields(records[0])) + ("\n" + Encode(records[1..]))
  {
    var lines := seq(|records|, i requires 0 <= i < |records| => Join(",", Fields(records[i])));
    if |records| >= 2 {
      assert lines[1..] == seq(|records[1..]|, i requires 0 <= i < |records[1..]| => Join(",", Fields(records[1..][i])));
      assert lines[0] + "\n" + Join("\n", lines[1..]) == lines[0] + ("\n" + Join("\n", lines[1..]));
    }
  }

  lemma DocumentCons(fs: seq<string>, rest: seq<seq<string>>, tail: string)
    requires |fs| >= 1 && ParseDocument(tail) == Some(rest)
    ensures ParseDocument(Join(",", Fields(fs)) + ("\n" + tail)) == Some([fs] + rest)
  {
    RecordRoundTrip(fs, "\n" + tail);
    assert ("\n" + tail)[1..] == tail;
  }

  /** Reading an encoded document gives back its records, as long as no record
      is empty (an empty record and a record of one empty field are the same
      line). */
  lemma {:induction false} DocumentRoundTrip(records: seq<seq<string>>)
    requires |records| >= 1
    requires forall i :: 0 <= i < |records| ==> |records[i]| >= 1
    ensures ParseDocument(Encode(records)) == Some(records)
  {
    EncodeCons(records);
    var first := Join(",", Fields(records[0]));
    if |records| == 1 {
      RecordRoundTrip(records[0], []);
      assert first + [] == first;
      assert [records[0]] == records;
    } else {
      var tail := Encode(records[1..]);
      DocumentRoundTrip(records[1..]);
      DocumentCons(records[0], records[1..], tail);
      assert [records[0]] + records[1..] == records;
    }
  }

  /** A header name that the unescaped header writes exactly as a field would. */
  predicate PlainName(c: string) {
    !NeedsQuotes(c)
  }

  /** The export, read back: the header names, then one record per row holding
      the row's values in column order. This holds when the column names are
      plain (the header is not escaped) and there is at least one column. */
  lemma ExportRoundTrip(columns: seq<string>, rows: seq<Row>)
    requires |columns| >= 1 && rows != []
    requires forall i :: 0 <= i < |columns| ==> PlainName(columns[i])
    ensures Export(Some(columns), Some(rows)).Some?
    ensures ParseDocument(Export(Some(columns), Some(rows)).value)
            == Some([columns] + seq(|rows|, i requires 0 <= i < |rows| => Cells(columns, rows[i])))
  {
    var records := [columns] + seq(|rows|, i requires 0 <= i < |rows| => Cells(columns, rows[i]));
    assert Fields(columns) == columns;
    var lines := [Header(Some(columns))] + seq(|rows|, i requires 0 <= i < |rows| => Line(Some(columns), rows[i]));
    assert lines == seq(|records|, i requires 0 <= i < |records| => Join(",", Fields(records[i])));
    DocumentRoundTrip(records);
  }

  /** An unquoted field is the value's text itself. */
  lemma UnquotedIsValue(v: string)
    requires !NeedsQuotes(v)
    ensures Field(v) == v
  {
  }

  /** A field is quoted exactly when its value holds a comma, a quote or a line
      feed; a carriage return alone does not quote it. */
  lemma QuotingRule(v: string)
    ensures Field(v) != [] && Field(v)[0] == '"' <==> NeedsQuotes(v)
    ensures NeedsQuotes(v) ==> Field(v) == "\"" + Escape(v) + "\""
  {
    if !NeedsQuotes(v) && Field(v) != [] {
      assert Field(v)[0] in v;
    }
  }

  lemma CarriageReturnNotQuoted()
    ensures Field("a\rb") == "a\rb"
  {
    assert !NeedsQuotes("a\rb");
  }
}
