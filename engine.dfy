/** The in-browser SQL engine (sql.js) as far as the sessions and the document API see it:
    a database object holding named tables, created empty or from exported bytes,
    exported as bytes, and closed. Query evaluation itself is the engine's business;
    the statements the sessions' callers run are modelled in modules Vault and CoreDb.

    The byte format of `export()` is a stand-in (SQLite's file format is not modelled);
    what matters is that loading what was exported gives back the same tables. */
module Engine {
  import opened Wrappers
  import opened Bytes
  import opened Codec

  /** The storage classes of a SQLite value. */
  datatype SqlValue = Null | Integer(i: int) | Text(t: string) | Blob(b: seq<byte>)

  type Row = seq<SqlValue>

  datatype Table = Table(name: string, columns: seq<string>, rows: seq<Row>)

  /** The value in column `i` of a row; a row too short for it reads as NULL. */
  function Cell(row: Row, i: nat): SqlValue
  {
    if i < |row| then row[i] else Null
  }

  /** The engine's error for a statement on a table the database does not have. */
  function NoSuchTable(name: string): string
  {
    "no such table: " + name
  }

  /** The position of the table called `name`, if there is one. */
  function TableIndex(ts: seq<Table>, name: string): (r: Option<nat>)
    ensures r.Some? ==> r.value < |ts| && ts[r.value].name == name
    ensures r.None? <==> forall j :: 0 <= j < |ts| ==> ts[j].name != name
    ensures r.Some? ==> forall j :: 0 <= j < r.value ==> ts[j].name != name
  {
    if ts == [] then None
    else if ts[0].name == name then Some(0)
    else match TableIndex(ts[1..], name)
      case None => None
      case Some(j) => Some(j + 1)
  }

  /** `CREATE TABLE IF NOT EXISTS`, for each table of `schema` in turn. */
  function CreateTables(ts: seq<Table>, schema: seq<Table>): seq<Table>
    decreases |schema|
  {
    if schema == [] then ts
    else CreateTables(if TableIndex(ts, schema[0].name).Some? then ts else ts + [schema[0]], schema[1..])
  }

  ghost predicate DistinctNames(ts: seq<Table>)
  {
    forall i, j :: 0 <= i < j < |ts| ==> ts[i].name != ts[j].name
  }

  /** On a database that has none of the schema's tables yet, the schema is created
      exactly as written, in order. */
  lemma {:induction false} CreateTablesFresh(ts: seq<Table>, schema: seq<Table>)
    requires DistinctNames(schema)
    requires forall i, j :: 0 <= i < |ts| && 0 <= j < |schema| ==> ts[i].name != schema[j].name
    ensures CreateTables(ts, schema) == ts + schema
    decreases |schema|
  {
    if schema != [] {
      assert TableIndex(ts, schema[0].name).None?;
      var ts' := ts + [schema[0]];
      var rest := schema[1..];
      forall i, j | 0 <= i < |ts'| && 0 <= j < |rest| ensures ts'[i].name != rest[j].name {
        assert rest[j] == schema[j + 1];
        if i < |ts| {
          assert ts'[i] == ts[i];
        } else {
          assert ts'[i] == schema[0];
        }
      }
      forall i, j | 0 <= i < j < |rest| ensures rest[i].name != rest[j].name {
        assert rest[i] == schema[i + 1] && rest[j] == schema[j + 1];
      }
      CreateTablesFresh(ts', rest);
      assert ts' + schema[1..] == ts + schema;
    }
  }

  function EncodeValue(v: SqlValue): seq<byte>
  {
    match v
    case Null => [0]
    case Integer(i) => [1] + EncodeInt(i)
    case Text(t) => [2] + EncodeString(t)
    case Blob(b) => [3] + EncodeBytes(b)
  }

  function DecodeValue(s: seq<byte>): Decoded<SqlValue>
  {
    if s == [] then None
    else if s[0] == 0 then Some((Null, s[1..]))
    else if s[0] == 1 then
      match DecodeInt(s[1..]) case None => None case Some((i, rest)) => Some((Integer(i), rest))
    else if s[0] == 2 then
      match DecodeString(s[1..]) case None => None case Some((t, rest)) => Some((Text(t), rest))
    else if s[0] == 3 then
      match DecodeBytes(s[1..]) case None => None case Some((b, rest)) => Some((Blob(b), rest))
    else None
  }

  lemma ValueRoundTrips()
    ensures RoundTrips(EncodeValue, DecodeValue)
  {
    forall v: SqlValue, rest: seq<byte> ensures DecodeValue(EncodeValue(v) + rest) == Some((v, rest)) {
      var s := EncodeValue(v) + rest;
      match v
      case Null =>
      case Integer(i) =>
        assert s[1..] == EncodeInt(i) + rest;
        DecodeEncodeInt(i, rest);
      case Text(t) =>
        assert s[1..] == EncodeString(t) + rest;
        DecodeEncodeString(t, rest);
      case Blob(b) =>
        assert s[1..] == EncodeBytes(b) + rest;
        DecodeEncodeBytes(b, rest);
    }
  }

  /** A sequence: its length, then its elements. */
  function EncodeRow(r: Row): seq<byte>
  {
    EncodeNat(|r|) + EncodeList(r, EncodeValue)
  }

  function DecodeRow(s: seq<byte>): Decoded<Row>
  {
    match DecodeNat(s)
    case None => None
    case Some((n, rest)) => DecodeList(n, rest, DecodeValue)
  }

  lemma RowRoundTrips()
    ensures RoundTrips(EncodeRow, DecodeRow)
  {
    ValueRoundTrips();
    forall r: Row, rest: seq<byte> ensures DecodeRow(EncodeRow(r) + rest) == Some((r, rest)) {
      var body := EncodeList(r, EncodeValue) + rest;
      assert EncodeRow(r) + rest == EncodeNat(|r|) + body;
      DecodeEncodeNat(|r|, body);
      DecodeEncodeList(r, rest, EncodeValue, DecodeValue);
    }
  }

  function EncodeStrings(ss: seq<string>): seq<byte>
  {
    EncodeNat(|ss|) + EncodeList(ss, EncodeString)
  }

  function DecodeStrings(s: seq<byte>): Decoded<seq<string>>
  {
    match DecodeNat(s)
    case None => None
    case Some((n, rest)) => DecodeList(n, rest, DecodeString)
  }

  lemma DecodeEncodeStrings(ss: seq<string>, rest: seq<byte>)
    ensures DecodeStrings(EncodeStrings(ss) + rest) == Some((ss, rest))
  {
    StringRoundTrips();
    var body := EncodeList(ss, EncodeString) + rest;
    assert EncodeStrings(ss) + rest == EncodeNat(|ss|) + body;
    DecodeEncodeNat(|ss|, body);
    DecodeEncodeList(ss, rest, EncodeString, DecodeString);
  }

  function EncodeRows(rs: seq<Row>): seq<byte>
  {
    EncodeNat(|rs|) + EncodeList(rs, EncodeRow)
  }

  function DecodeRows(s: seq<byte>): Decoded<seq<Row>>
  {
    match DecodeNat(s)
    case None => None
    case Some((n, rest)) => DecodeList(n, rest, DecodeRow)
  }

  lemma DecodeEncodeRows(rs: seq<Row>, rest: seq<byte>)
    ensures DecodeRows(EncodeRows(rs) + rest) == Some((rs, rest))
  {
    RowRoundTrips();
    var body := EncodeList(rs, EncodeRow) + rest;
    assert EncodeRows(rs) + rest == EncodeNat(|rs|) + body;
    DecodeEncodeNat(|rs|, body);
    DecodeEncodeList(rs, rest, EncodeRow, DecodeRow);
  }

  function EncodeTable(t: Table): seq<byte>
  {
    EncodeString(t.name) + EncodeStrings(t.columns) + EncodeRows(t.rows)
  }

  function DecodeTable(s: seq<byte>): Decoded<Table>
  {
    match DecodeString(s)
    case None => None
    case Some((name, r1)) =>
      match DecodeStrings(r1)
      case None => None
      case Some((columns, r2)) =>
        match DecodeRows(r2)
        case None => None
        case Some((rows, r3)) => Some((Table(name, columns, rows), r3))
  }

  lemma TableRoundTrips()
    ensures RoundTrips(EncodeTable, DecodeTable)
  {
    forall t: Table, rest: seq<byte> ensures DecodeTable(EncodeTable(t) + rest) == Some((t, rest)) {
      var r2 := EncodeRows(t.rows) + rest;
      var r1 := EncodeStrings(t.columns) + r2;
      assert EncodeTable(t) + rest == EncodeString(t.name) + r1;
      DecodeEncodeString(t.name, r1);
      DecodeEncodeStrings(t.columns, r2);
      DecodeEncodeRows(t.rows, rest);
    }
  }

  /** The bytes `db.export()` returns for a database holding `ts`. */
  function EncodeImage(ts: seq<Table>): seq<byte>
  {
    EncodeNat(|ts|) + EncodeList(ts, EncodeTable)
  }

  /** The tables `new SQL.Database(bytes)` finds in `bytes`. Bytes that are not an
      exported image give a database without tables. */
  function ImportImage(image: seq<byte>): seq<Table>
  {
    match DecodeNat(image)
    case None => []
    case Some((n, rest)) =>
      match DecodeList(n, rest, DecodeTable)
      case Some((ts, tail)) => if tail == [] then ts else []
      case None => []
  }

  /** Loading an exported image gives back exactly the exported tables. */
  lemma ImportExport(ts: seq<Table>)
    ensures ImportImage(EncodeImage(ts)) == ts
  {
    TableRoundTrips();
    var body := EncodeList(ts, EncodeTable);
    assert EncodeImage(ts) == EncodeNat(|ts|) + body;
    DecodeEncodeNat(|ts|, body);
    assert body == body + [];
    DecodeEncodeList(ts, [], EncodeTable, DecodeTable);
  }

  /** A sql.js `Database` object. */
  class Database {
    var tables: seq<Table>
    var closed: bool

    /** `new SQL.Database()`. */
    constructor Empty()
      ensures tables == [] && !closed
    {
      tables := [];
      closed := false;
    }

    /** `new SQL.Database(bytes)`. */
    constructor Load(image: seq<byte>)
      ensures tables == ImportImage(image) && !closed
    {
      tables := ImportImage(image);
      closed := false;
    }

    /** `db.export()`. */
    function Export(): seq<byte>
      reads this
    {
      EncodeImage(tables)
    }

    /** `db.run(ddl)` for a script of `CREATE TABLE IF NOT EXISTS` statements. */
    method CreateSchema(schema: seq<Table>)
      modifies this
      ensures tables == CreateTables(old(tables), schema) && closed == old(closed)
    {
      tables := CreateTables(tables, schema);
    }

    /** `db.close()`. */
    method Close()
      modifies this
      ensures closed && tables == old(tables)
    {
      closed := true;
    }
  }

  /** One result set of `db.exec(sql)`: column names and rows of values. sql.js
      returns no result set at all for a query that matched no rows. */
  datatype ResultSet = ResultSet(columns: seq<string>, values: seq<Row>)

  /** A row as a JavaScript object (`Object.fromEntries`): property name to value. */
  type RowObject = map<string, SqlValue>

  /** `columns[i]`, which is `undefined` (the property "undefined") past the end. */
  function ColumnName(columns: seq<string>, i: nat): string
  {
    if i < |columns| then columns[i] else "undefined"
  }

  /** `Object.fromEntries(row.map((v, i) => [columns[i], v]))`: entries are set in
      order, so a later entry with the same name wins. */
  function ZipObject(columns: seq<string>, row: Row): RowObject
  {
    if row == [] then map[]
    else ZipObject(columns, row[..|row| - 1])[ColumnName(columns, |row| - 1) := row[|row| - 1]]
  }

  ghost predicate Distinct(columns: seq<string>)
  {
    forall i, j :: 0 <= i < j < |columns| ==> columns[i] != columns[j]
  }

  /** With distinct column names, the object maps the name of each column the row
      reaches to the row's value in it, and has no other properties. */
  lemma {:induction false} ZipObjectAt(columns: seq<string>, row: Row)
    requires |row| <= |columns| && Distinct(columns)
    ensures ZipObject(columns, row).Keys == set i | 0 <= i < |row| :: columns[i]
    ensures forall i :: 0 <= i < |row| ==> ZipObject(columns, row)[columns[i]] == row[i]
  {
    if row != [] {
      var n := |row| - 1;
      var prev := ZipObject(columns, row[..n]);
      ZipObjectAt(columns, row[..n]);
      assert ZipObject(columns, row) == prev[columns[n] := row[n]];
      assert (set i | 0 <= i < |row| :: columns[i]) == (set i | 0 <= i < n :: columns[i]) + {columns[n]};
      forall i | 0 <= i < n ensures ZipObject(columns, row)[columns[i]] == row[i] {
        assert columns[i] != columns[n];
        assert row[..n][i] == row[i];
      }
    }
  }

  /** `res[0] ? res[0].values.map(zip) : []`: the rows of the first result set as
      objects, as db.js `listStudents`, export.js `rows` and the Vault's queries build them. */
  function RowObjects(res: seq<ResultSet>): (objs: seq<RowObject>)
    ensures res == [] ==> objs == []
    ensures res != [] ==> |objs| == |res[0].values|
    ensures res != [] && Distinct(res[0].columns) ==>
      forall i :: 0 <= i < |objs| && |res[0].values[i]| <= |res[0].columns| ==>
        && objs[i].Keys == (set j | 0 <= j < |res[0].values[i]| :: res[0].columns[j])
        && forall j :: 0 <= j < |res[0].values[i]| ==> objs[i][res[0].columns[j]] == res[0].values[i][j]
  {
    if res == [] then []
    else
      ZipObjectsAt(res[0].columns, res[0].values);
      seq(|res[0].values|, i requires 0 <= i < |res[0].values| => ZipObject(res[0].columns, res[0].values[i]))
  }

  /** ZipObjectAt for every row of a result set. */
  lemma ZipObjectsAt(columns: seq<string>, values: seq<Row>)
    ensures Distinct(columns) ==>
      forall i :: 0 <= i < |values| && |values[i]| <= |columns| ==>
        && ZipObject(columns, values[i]).Keys == (set j | 0 <= j < |values[i]| :: columns[j])
        && forall j :: 0 <= j < |values[i]| ==> ZipObject(columns, values[i])[columns[j]] == values[i][j]
  {
    if Distinct(columns) {
      forall i | 0 <= i < |values| && |values[i]| <= |columns|
        ensures ZipObject(columns, values[i]).Keys == (set j | 0 <= j < |values[i]| :: columns[j])
        ensures forall j :: 0 <= j < |values[i]| ==> ZipObject(columns, values[i])[columns[j]] == values[i][j]
      {
        ZipObjectAt(columns, values[i]);
      }
    }
  }

  /** Each object maps every column name of the result set to that row's value in that column. */
  lemma RowObjectsAt(res: seq<ResultSet>, i: nat, j: nat)
    requires res != [] && Distinct(res[0].columns)
    requires i < |res[0].values| && |res[0].values[i]| == |res[0].columns| && j < |res[0].columns|
    ensures res[0].columns[j] in RowObjects(res)[i]
    ensures RowObjects(res)[i][res[0].columns[j]] == res[0].values[i][j]
  {
    ZipObjectAt(res[0].columns, res[0].values[i]);
  }

  /** `db.exec(sql)` for a SELECT: one result set, or none when no row matched. */
  function ExecResult(columns: seq<string>, rows: seq<Row>): seq<ResultSet>
  {
    if rows == [] then [] else [ResultSet(columns, rows)]
  }

  function Project(row: Row, positions: seq<nat>): Row
  {
    seq(|positions|, i requires 0 <= i < |positions| => Cell(row, positions[i]))
  }

  function ProjectAll(rows: seq<Row>, positions: seq<nat>): seq<Row>
  {
    seq(|rows|, i requires 0 <= i < |rows| => Project(rows[i], positions))
  }

  /** Each object of a SELECT result carries, under each selected column name, that
      column of the corresponding matching row. */
  lemma SelectedObject(columns: seq<string>, positions: seq<nat>, rows: seq<Row>, i: nat, j: nat)
    requires |columns| == |positions| && Distinct(columns)
    requires i < |rows| && j < |columns|
    ensures i < |RowObjects(ExecResult(columns, ProjectAll(rows, positions)))|
    ensures columns[j] in RowObjects(ExecResult(columns, ProjectAll(rows, positions)))[i]
    ensures RowObjects(ExecResult(columns, ProjectAll(rows, positions)))[i][columns[j]] == Cell(rows[i], positions[j])
  {
    var res := ExecResult(columns, ProjectAll(rows, positions));
    assert res[0].values[i] == Project(rows[i], positions);
    RowObjectsAt(res, i, j);
  }
}
