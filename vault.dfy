/** The document and photo API of scripts/vault.js, on top of the Vault session.
    Every operation first checks that the Vault is open; each mutation changes the
    engine's tables in place and is followed by `persistVault`.

    Randomness (`crypto.randomUUID`, the IV), the clock (`Date.now`) and the SHA-256
    digest (computed by WebCrypto) are parameters. */
module Vault {
  import opened Wrappers
  import opened Bytes
  import opened Crypto
  import opened Engine
  import opened Store
  import opened Session

  const DOC_TABLE := "dokument"
  const PHOTO_TABLE := "foto"
  const BYTES_ERROR := "bytes muss Uint8Array sein"

  const DUPLICATE_ID := "UNIQUE constraint failed: dokument.id"

  // ---- sha256Hex: hex encoding of a digest ----

  function HexDigit(d: nat): char
    requires d < 16
  {
    "0123456789abcdef"[d]
  }

  /** `b.toString(16)`: no leading zero. */
  function ToString16(b: byte): string
  {
    if b < 16 then [HexDigit(b as nat)] else [HexDigit(b as nat / 16), HexDigit(b as nat % 16)]
  }

  /** `s.padStart(2, '0')`. */
  function PadStart2(s: string): string
  {
    if |s| < 2 then seq(2 - |s|, _ => '0') + s else s
  }

  function ByteHex(b: byte): string
  {
    PadStart2(ToString16(b))
  }

  /** `[...view].map(b => b.toString(16).padStart(2, '0')).join('')`. */
  function HexString(d: seq<byte>): string
  {
    if d == [] then "" else ByteHex(d[0]) + HexString(d[1..])
  }

  /** Each byte becomes exactly two digits, high nibble first, zero-padded. */
  lemma ByteHexDigits(b: byte)
    ensures ByteHex(b) == [HexDigit(b as nat / 16), HexDigit(b as nat % 16)]
  {
  }

  predicate IsLowerHex(c: char)
  {
    '0' <= c <= '9' || 'a' <= c <= 'f'
  }

  function HexValue(c: char): nat
    requires IsLowerHex(c)
  {
    if c <= '9' then c as nat - '0' as nat else c as nat - 'a' as nat + 10
  }

  /** Reads two hex digits per byte. */
  function ParseHex(s: string): Option<seq<byte>>
  {
    if s == [] then Some([])
    else if |s| >= 2 && IsLowerHex(s[0]) && IsLowerHex(s[1]) then
      match ParseHex(s[2..])
      case None => None
      case Some(rest) => Some([(HexValue(s[0]) * 16 + HexValue(s[1])) as byte] + rest)
    else None
  }

  lemma HexDigitValue(d: nat)
    requires d < 16
    ensures IsLowerHex(HexDigit(d)) && HexValue(HexDigit(d)) == d
  {
  }

  /** The two digits of a byte are lowercase hex digits that read back as the byte. */
  lemma ByteHexReads(b: byte)
    ensures |ByteHex(b)| == 2 && IsLowerHex(ByteHex(b)[0]) && IsLowerHex(ByteHex(b)[1])
    ensures (HexValue(ByteHex(b)[0]) * 16 + HexValue(ByteHex(b)[1])) as byte == b
  {
    ByteHexDigits(b);
    HexDigitValue(b as nat / 16);
    HexDigitValue(b as nat % 16);
  }

  /** Two hex digits in front of a readable hex string read as one more byte in front. */
  lemma HexPairInFront(h: string, t: string, b: byte, rest: seq<byte>)
    requires |h| == 2 && IsLowerHex(h[0]) && IsLowerHex(h[1])
    requires (HexValue(h[0]) * 16 + HexValue(h[1])) as byte == b
    requires ParseHex(t) == Some(rest) && forall i :: 0 <= i < |t| ==> IsLowerHex(t[i])
    ensures ParseHex(h + t) == Some([b] + rest)
    ensures forall i :: 0 <= i < |h + t| ==> IsLowerHex((h + t)[i])
  {
    var s := h + t;
    assert s[0] == h[0] && s[1] == h[1] && s[2..] == t;
    forall i | 0 <= i < |s| ensures IsLowerHex(s[i]) {
      if i < 2 { assert s[i] == h[i]; } else { assert s[i] == t[i - 2]; }
    }
  }

  /** The hex string is twice as long as the digest, uses only lowercase hex digits,
      and the digest can be read back from it. */
  lemma {:induction false} HexStringRoundTrip(d: seq<byte>)
    ensures |HexString(d)| == 2 * |d|
    ensures forall i :: 0 <= i < |HexString(d)| ==> IsLowerHex(HexString(d)[i])
    ensures ParseHex(HexString(d)) == Some(d)
  {
    if d != [] {
      ByteHexReads(d[0]);
      HexStringRoundTrip(d[1..]);
      HexPairInFront(ByteHex(d[0]), HexString(d[1..]), d[0], d[1..]);
      assert [d[0]] + d[1..] == d;
    }
  }

  // ---- rows and statements ----

  /** The bytes argument: a Uint8Array, or anything else. */
  datatype BytesArg = Uint8Array(bytes: seq<byte>) | NotUint8Array

  /** `meta: { student_id, titel, dateiname, mime }`. */
  datatype Meta = Meta(studentId: string, titel: string, dateiname: string, mime: string)

  /** The `INSERT INTO dokument` parameters, in column order. */
  function DocumentRow(id: string, meta: Meta, bytes: seq<byte>, sha: string, now: int): Row
  {
    [Text(id), Text(meta.studentId), Text(meta.titel), Text(meta.dateiname), Text(meta.mime),
     Integer(|bytes|), Text(sha), Integer(now), Blob(bytes)]
  }

  /** The `INSERT INTO foto` parameters, in column order. */
  function PhotoRow(studentId: string, mime: string, bytes: seq<byte>, now: int): Row
  {
    [Text(studentId), Text(mime), Integer(|bytes|), Integer(now), Blob(bytes)]
  }

  /** The rows whose column `col` holds `key` (`WHERE col = ?`), in table order. */
  function Matching(rows: seq<Row>, col: nat, key: SqlValue): (m: seq<Row>)
    ensures |m| <= |rows|
    ensures forall r :: r in m <==> r in rows && Cell(r, col) == key
  {
    if rows == [] then []
    else (if Cell(rows[0], col) == key then [rows[0]] else []) + Matching(rows[1..], col, key)
  }

  /** `DELETE FROM t WHERE col = ?`: the other rows, in table order. */
  function Without(rows: seq<Row>, col: nat, key: SqlValue): (m: seq<Row>)
    ensures |m| <= |rows|
    ensures forall r :: r in m <==> r in rows && Cell(r, col) != key
  {
    if rows == [] then []
    else (if Cell(rows[0], col) == key then [] else [rows[0]]) + Without(rows[1..], col, key)
  }

  /** The position of the first row whose column `col` holds `key`. */
  function FirstIndex(rows: seq<Row>, col: nat, key: SqlValue): (r: Option<nat>)
    ensures r.Some? ==> r.value < |rows| && Cell(rows[r.value], col) == key
    ensures r.None? <==> forall j :: 0 <= j < |rows| ==> Cell(rows[j], col) != key
    ensures r.Some? ==> forall j :: 0 <= j < r.value ==> Cell(rows[j], col) != key
  {
    if rows == [] then None
    else if Cell(rows[0], col) == key then Some(0)
    else match FirstIndex(rows[1..], col, key)
      case None => None
      case Some(j) => Some(j + 1)
  }

  /** `INSERT ... ON CONFLICT(col) DO UPDATE SET` every other column: the conflicting row
      is replaced where it stands, otherwise the row is appended. */
  function Upsert(rows: seq<Row>, col: nat, row: Row): seq<Row>
  {
    match FirstIndex(rows, col, Cell(row, col))
    case Some(i) => rows[i := row]
    case None => rows + [row]
  }

  /** A primary key: no two rows share a value in column `col`. */
  ghost predicate Unique(rows: seq<Row>, col: nat)
  {
    forall i, j :: 0 <= i < j < |rows| ==> Cell(rows[i], col) != Cell(rows[j], col)
  }

  lemma {:induction false} MatchingUnique(rows: seq<Row>, col: nat, key: SqlValue)
    requires Unique(rows, col)
    ensures |Matching(rows, col, key)| <= 1
    ensures FirstIndex(rows, col, key).None? ==> Matching(rows, col, key) == []
    ensures FirstIndex(rows, col, key).Some? ==> Matching(rows, col, key) == [rows[FirstIndex(rows, col, key).value]]
  {
    if rows != [] {
      assert Unique(rows[1..], col) by {
        forall i, j | 0 <= i < j < |rows[1..]| ensures Cell(rows[1..][i], col) != Cell(rows[1..][j], col) {
          assert rows[1..][i] == rows[i + 1] && rows[1..][j] == rows[j + 1];
        }
      }
      MatchingUnique(rows[1..], col, key);
      if Cell(rows[0], col) == key {
        MatchingEmpty(rows[1..], col, key);
      }
    }
  }

  lemma {:induction false} MatchingEmpty(rows: seq<Row>, col: nat, key: SqlValue)
    requires forall j :: 0 <= j < |rows| ==> Cell(rows[j], col) != key
    ensures Matching(rows, col, key) == []
  {
    if rows != [] {
      MatchingEmpty(rows[1..], col, key);
    }
  }

  /** Upserting keeps the key unique, leaves exactly the new row under its key, and
      leaves the rows under every other key as they were. */
  lemma UpsertSpec(rows: seq<Row>, col: nat, row: Row, other: SqlValue)
    requires Unique(rows, col) && other != Cell(row, col)
    ensures Unique(Upsert(rows, col, row), col)
    ensures Matching(Upsert(rows, col, row), col, Cell(row, col)) == [row]
    ensures Matching(Upsert(rows, col, row), col, other) == Matching(rows, col, other)
  {
    match FirstIndex(rows, col, Cell(row, col))
    case Some(i) =>
      UpsertReplaces(rows, col, i, row, other);
    case None =>
      UpsertAppends(rows, col, row, other);
  }

  lemma UpsertReplaces(rows: seq<Row>, col: nat, i: nat, row: Row, other: SqlValue)
    requires Unique(rows, col) && other != Cell(row, col)
    requires i < |rows| && Cell(rows[i], col) == Cell(row, col)
    ensures Unique(rows[i := row], col)
    ensures Matching(rows[i := row], col, Cell(row, col)) == [row]
    ensures Matching(rows[i := row], col, other) == Matching(rows, col, other)
  {
    var key := Cell(row, col);
    var up := rows[i := row];
    assert forall k :: 0 <= k < |up| ==> Cell(up[k], col) == Cell(rows[k], col);
    assert Unique(up, col) by {
      forall a, b | 0 <= a < b < |up| ensures Cell(up[a], col) != Cell(up[b], col) {
        assert Cell(up[a], col) == Cell(rows[a], col) && Cell(up[b], col) == Cell(rows[b], col);
      }
    }
    MatchingReplace(rows, col, i, row, key);
    MatchingReplace(rows, col, i, row, other);
    MatchingSplit(rows, col, i, other);
    UniqueAround(rows, col, i, rows[i + 1..]);
    MatchingEmpty(rows[..i], col, key);
    MatchingEmpty(rows[i + 1..], col, key);
  }

  /** Under a primary key, the rows before and after row `i` hold other keys. */
  lemma UniqueAround(rows: seq<Row>, col: nat, i: nat, after: seq<Row>)
    requires Unique(rows, col) && i < |rows| && after == rows[i + 1..]
    ensures forall j :: 0 <= j < |rows[..i]| ==> Cell(rows[..i][j], col) != Cell(rows[i], col)
    ensures forall j :: 0 <= j < |after| ==> Cell(after[j], col) != Cell(rows[i], col)
  {
    forall j | 0 <= j < |rows[..i]| ensures Cell(rows[..i][j], col) != Cell(rows[i], col) {
      assert rows[..i][j] == rows[j];
    }
    forall j | 0 <= j < |after| ensures Cell(after[j], col) != Cell(rows[i], col) {
      assert after[j] == rows[i + 1 + j];
    }
  }

  lemma UpsertAppends(rows: seq<Row>, col: nat, row: Row, other: SqlValue)
    requires Unique(rows, col) && other != Cell(row, col)
    requires forall j :: 0 <= j < |rows| ==> Cell(rows[j], col) != Cell(row, col)
    ensures Unique(rows + [row], col)
    ensures Matching(rows + [row], col, Cell(row, col)) == [row]
    ensures Matching(rows + [row], col, other) == Matching(rows, col, other)
  {
    MatchingAppend(rows, col, row, Cell(row, col));
    MatchingAppend(rows, col, row, other);
    MatchingEmpty(rows, col, Cell(row, col));
  }

  lemma {:induction false} MatchingAppend(rows: seq<Row>, col: nat, row: Row, key: SqlValue)
    ensures Matching(rows + [row], col, key) == Matching(rows, col, key) + (if Cell(row, col) == key then [row] else [])
  {
    if rows == [] {
      assert [] + [row] == [row];
    } else {
      assert (rows + [row])[1..] == rows[1..] + [row];
      MatchingAppend(rows[1..], col, row, key);
    }
  }

  lemma {:induction false} MatchingReplace(rows: seq<Row>, col: nat, i: nat, row: Row, key: SqlValue)
    requires i < |rows| && Cell(rows[i], col) == Cell(row, col)
    ensures Matching(rows[i := row], col, key) ==
      Matching(rows[..i], col, key) + (if Cell(row, col) == key then [row] else []) + Matching(rows[i + 1..], col, key)
  {
    MatchingSplit(rows[i := row], col, i, key);
    MatchingSplit(rows, col, i, key);
    assert rows[i := row][..i] == rows[..i];
    assert rows[i := row][i + 1..] == rows[i + 1..];
  }

  lemma {:induction false} MatchingSplit(rows: seq<Row>, col: nat, i: nat, key: SqlValue)
    requires i < |rows|
    ensures Matching(rows, col, key) ==
      Matching(rows[..i], col, key) + (if Cell(rows[i], col) == key then [rows[i]] else []) + Matching(rows[i + 1..], col, key)
  {
    MatchingConcat(rows[..i], rows[i..], col, key);
    assert rows == rows[..i] + rows[i..];
    assert rows[i..][1..] == rows[i + 1..];
  }

  lemma {:induction false} MatchingConcat(a: seq<Row>, b: seq<Row>, col: nat, key: SqlValue)
    ensures Matching(a + b, col, key) == Matching(a, col, key) + Matching(b, col, key)
  {
    if a == [] {
      assert a + b == b;
    } else {
      assert (a + b)[1..] == a[1..] + b;
      MatchingConcat(a[1..], b, col, key);
    }
  }

  /** After a delete, no row is left under the key, and every other key keeps its rows. */
  lemma {:induction false} WithoutSpec(rows: seq<Row>, col: nat, key: SqlValue, other: SqlValue)
    requires other != key
    ensures Matching(Without(rows, col, key), col, key) == []
    ensures Matching(Without(rows, col, key), col, other) == Matching(rows, col, other)
  {
    if rows != [] {
      WithoutSpec(rows[1..], col, key, other);
      var w := Without(rows, col, key);
      if Cell(rows[0], col) == key {
        assert w == Without(rows[1..], col, key);
      } else {
        assert w == [rows[0]] + Without(rows[1..], col, key);
        assert w[1..] == Without(rows[1..], col, key);
      }
    }
  }

  /** The last row a statement's `while (stmt.step())` loop sees, when the loop starts
      after the first result row (`getAsObject([id])` has already stepped onto it). */
  function LastAfterFirst(matches: seq<Row>): Option<Row>
  {
    if |matches| >= 2 then Some(matches[|matches| - 1]) else None
  }

  /** The last result row, as a loop over a freshly bound statement sees it. */
  function LastMatch(matches: seq<Row>): Option<Row>
  {
    if matches == [] then None else Some(matches[|matches| - 1])
  }

  /** The `while (stmt.step()) { out = row; }` loop over the result rows: the statement
      starts after the first row when `steppedOnce` (the as-written getters), at the top
      otherwise (a plain `bind`). */
  method ReadLastRow(matches: seq<Row>, steppedOnce: bool) returns (last: Option<Row>)
    ensures last == if steppedOnce then LastAfterFirst(matches) else LastMatch(matches)
  {
    var pos := if steppedOnce && matches != [] then 1 else 0;
    var start := pos;
    last := None;
    while pos < |matches|
      invariant start <= pos <= |matches|
      invariant last == if pos == start then None else Some(matches[pos - 1])
    {
      last := Some(matches[pos]);
      pos := pos + 1;
    }
  }

  /** With a primary key, at most one row matches, so the as-written loop never sees it. */
  lemma AsWrittenLookupMisses(rows: seq<Row>, col: nat, key: SqlValue)
    requires Unique(rows, col)
    ensures LastAfterFirst(Matching(rows, col, key)) == None
  {
    MatchingUnique(rows, col, key);
  }

  /** The photo object `getPhoto` builds from `SELECT mime, groesse_bytes, created_at, blob`. */
  datatype Photo = Photo(mime: SqlValue, size: SqlValue, createdAt: SqlValue, bytes: SqlValue)

  function PhotoOf(row: Row): Photo
  {
    Photo(Cell(row, 1), Cell(row, 2), Cell(row, 3), Cell(row, 4))
  }

  function PhotoOfRow(r: Option<Row>): Option<Photo>
  {
    match r
    case None => None
    case Some(row) => Some(PhotoOf(row))
  }

  function BlobOfRow(r: Option<Row>): Option<SqlValue>
  {
    match r
    case None => None
    case Some(row) => Some(Cell(row, 8))
  }

  /** What a photo lookup by the corrected getter returns right after `setPhoto`: a photo
      with the new mime type, size, time and bytes; after `deletePhoto`: null. */
  lemma PhotoLookupAfterSet(rows: seq<Row>, studentId: string, mime: string, bytes: seq<byte>, now: int, other: SqlValue)
    requires Unique(rows, 0) && other != Text(studentId)
    ensures LastMatch(Matching(Upsert(rows, 0, PhotoRow(studentId, mime, bytes, now)), 0, Text(studentId)))
            == Some(PhotoRow(studentId, mime, bytes, now))
    ensures PhotoOf(PhotoRow(studentId, mime, bytes, now)) == Photo(Text(mime), Integer(|bytes|), Integer(now), Blob(bytes))
    ensures LastMatch(Matching(Without(rows, 0, Text(studentId)), 0, Text(studentId))) == None
    ensures LastAfterFirst(Matching(Upsert(rows, 0, PhotoRow(studentId, mime, bytes, now)), 0, Text(studentId))) == None
  {
    UpsertSpec(rows, 0, PhotoRow(studentId, mime, bytes, now), other);
    WithoutSpec(rows, 0, Text(studentId), other);
  }

  /** Right after `addDocument` stored a new id, the corrected blob getter returns the
      stored bytes, while the as-written one returns null. */
  lemma DocumentLookupAfterAdd(rows: seq<Row>, id: string, meta: Meta, bytes: seq<byte>, sha: string, now: int)
    requires FirstIndex(rows, 0, Text(id)).None?
    ensures BlobOfRow(LastMatch(Matching(rows + [DocumentRow(id, meta, bytes, sha, now)], 0, Text(id)))) == Some(Blob(bytes))
    ensures BlobOfRow(LastAfterFirst(Matching(rows + [DocumentRow(id, meta, bytes, sha, now)], 0, Text(id)))) == None
  {
    var row := DocumentRow(id, meta, bytes, sha, now);
    MatchingAppend(rows, 0, row, Text(id));
    MatchingEmpty(rows, 0, Text(id));
    assert Matching(rows + [row], 0, Text(id)) == [row];
  }

  const LIST_COLUMNS := ["id", "titel", "dateiname", "mime", "groesse_bytes", "sha256", "created_at"]
  const LIST_POSITIONS: seq<nat> := [0, 2, 3, 4, 5, 6, 7]
  const META_COLUMNS := ["id", "student_id", "titel", "dateiname", "mime", "groesse_bytes", "sha256", "created_at"]
  const META_POSITIONS: seq<nat> := [0, 1, 2, 3, 4, 5, 6, 7]

  lemma ListColumnsDistinct()
    ensures Distinct(LIST_COLUMNS)
  {
    forall i, j | 0 <= i < j < |LIST_COLUMNS| ensures LIST_COLUMNS[i] != LIST_COLUMNS[j] {
      assert LIST_COLUMNS[i][0] != LIST_COLUMNS[j][0];
    }
  }

  /** The objects a document listing is built from belong to documents of the student,
      and carry each listed column of the document under its name. */
  lemma ListedDocument(rows: seq<Row>, studentId: string, i: nat, j: nat)
    requires i < |Matching(rows, 1, Text(studentId))| && j < |LIST_COLUMNS|
    ensures Matching(rows, 1, Text(studentId))[i] in rows
    ensures Cell(Matching(rows, 1, Text(studentId))[i], 1) == Text(studentId)
    ensures i < |RowObjects(ExecResult(LIST_COLUMNS, ProjectAll(Matching(rows, 1, Text(studentId)), LIST_POSITIONS)))|
    ensures LIST_COLUMNS[j] in RowObjects(ExecResult(LIST_COLUMNS, ProjectAll(Matching(rows, 1, Text(studentId)), LIST_POSITIONS)))[i]
    ensures RowObjects(ExecResult(LIST_COLUMNS, ProjectAll(Matching(rows, 1, Text(studentId)), LIST_POSITIONS)))[i][LIST_COLUMNS[j]]
            == Cell(Matching(rows, 1, Text(studentId))[i], LIST_POSITIONS[j])
  {
    var m := Matching(rows, 1, Text(studentId));
    assert m[i] in m;
    ListColumnsDistinct();
    SelectedObject(LIST_COLUMNS, LIST_POSITIONS, m, i, j);
  }

  // ---- the API ----

  /** `addDocument(bytes, meta)`: stores the document with its size and hash and
      returns the new id and the hash. */
  method AddDocument(v: Session, bytes: BytesArg, meta: Meta, id: string, now: int, digest: seq<byte>, iv: Iv)
    returns (r: Result<(string, string)>)
    requires v.Valid()
    modifies v.db, v.store
    ensures v.Valid()
    ensures v.db == null ==> r == Err(VAULT_NOT_OPEN) && v.store.records == old(v.store.records)
    ensures v.db != null && bytes.NotUint8Array? ==>
      r == Err(BYTES_ERROR) && v.db.tables == old(v.db.tables) && v.store.records == old(v.store.records)
    ensures v.db != null && bytes.Uint8Array? ==>
      match TableIndex(old(v.db.tables), DOC_TABLE)
      case None =>
        r == Err(NoSuchTable(DOC_TABLE)) && v.db.tables == old(v.db.tables) && v.store.records == old(v.store.records)
      case Some(t) =>
        var rows := old(v.db.tables)[t].rows;
        if FirstIndex(rows, 0, Text(id)).Some? then
          r == Err(DUPLICATE_ID) && v.db.tables == old(v.db.tables) && v.store.records == old(v.store.records)
        else
          && r == Ok((id, HexString(digest)))
          && v.db.tables == old(v.db.tables)[t := old(v.db.tables)[t].(rows := rows + [DocumentRow(id, meta, bytes.bytes, HexString(digest), now)])]
          && v.store.records == old(v.store.records)[v.blobId := Seal(v.key.value, iv, v.db.Export())]
  {
    if v.db == null {
      return Err(VAULT_NOT_OPEN);
    }
    if bytes.NotUint8Array? {
      return Err(BYTES_ERROR);
    }
    var sha := HexString(digest);
    var t := TableIndex(v.db.tables, DOC_TABLE);
    if t.None? {
      return Err(NoSuchTable(DOC_TABLE));
    }
    var table := v.db.tables[t.value];
    if FirstIndex(table.rows, 0, Text(id)).Some? {
      return Err(DUPLICATE_ID);
    }
    v.db.tables := v.db.tables[t.value := table.(rows := table.rows + [DocumentRow(id, meta, bytes.bytes, sha, now)])];
    var _ := v.Persist(iv);
    return Ok((id, sha));
  }

  /** `listDocumentsByStudent(student_id)`: the selected columns of the student's documents. */
  method ListDocumentsByStudent(v: Session, studentId: string) returns (r: Result<seq<RowObject>>)
    requires v.Valid()
    ensures v.db == null ==> r == Err(VAULT_NOT_OPEN)
    ensures v.db != null ==>
      match TableIndex(v.db.tables, DOC_TABLE)
      case None => r == Err(NoSuchTable(DOC_TABLE))
      case Some(t) =>
        r == Ok(RowObjects(ExecResult(LIST_COLUMNS, ProjectAll(Matching(v.db.tables[t].rows, 1, Text(studentId)), LIST_POSITIONS))))
  {
    if v.db == null {
      return Err(VAULT_NOT_OPEN);
    }
    var t := TableIndex(v.db.tables, DOC_TABLE);
    if t.None? {
      return Err(NoSuchTable(DOC_TABLE));
    }
    var res := ExecResult(LIST_COLUMNS, ProjectAll(Matching(v.db.tables[t.value].rows, 1, Text(studentId)), LIST_POSITIONS));
    return Ok(RowObjects(res));
  }

  /** `getDocumentMeta(id)`: the metadata of the document, or null. */
  method GetDocumentMeta(v: Session, id: string) returns (r: Result<Option<RowObject>>)
    requires v.Valid()
    ensures v.db == null ==> r == Err(VAULT_NOT_OPEN)
    ensures v.db != null ==>
      match TableIndex(v.db.tables, DOC_TABLE)
      case None => r == Err(NoSuchTable(DOC_TABLE))
      case Some(t) =>
        var m := Matching(v.db.tables[t].rows, 0, Text(id));
        r == Ok(if m == [] then None else Some(ZipObject(META_COLUMNS, Project(m[0], META_POSITIONS))))
  {
    if v.db == null {
      return Err(VAULT_NOT_OPEN);
    }
    var t := TableIndex(v.db.tables, DOC_TABLE);
    if t.None? {
      return Err(NoSuchTable(DOC_TABLE));
    }
    var res := ExecResult(META_COLUMNS, ProjectAll(Matching(v.db.tables[t.value].rows, 0, Text(id)), META_POSITIONS));
    if res == [] {
      return Ok(None);
    }
    return Ok(Some(RowObjects(res)[0]));
  }

  /** `getDocumentBlob(id)` as written: `getAsObject([id])` already steps onto the first
      result row, so the loop only sees rows after it. */
  method GetDocumentBlob(v: Session, id: string) returns (r: Result<Option<SqlValue>>)
    requires v.Valid()
    ensures v.db == null ==> r == Err(VAULT_NOT_OPEN)
    ensures v.db != null ==>
      match TableIndex(v.db.tables, DOC_TABLE)
      case None => r == Err(NoSuchTable(DOC_TABLE))
      case Some(t) => r == Ok(BlobOfRow(LastAfterFirst(Matching(v.db.tables[t].rows, 0, Text(id)))))
  {
    if v.db == null {
      return Err(VAULT_NOT_OPEN);
    }
    var t := TableIndex(v.db.tables, DOC_TABLE);
    if t.None? {
      return Err(NoSuchTable(DOC_TABLE));
    }
    var last := ReadLastRow(Matching(v.db.tables[t.value].rows, 0, Text(id)), true);
    return Ok(BlobOfRow(last));
  }

  /** `getDocumentBlob(id)` with the statement bound (`stmt.bind([id])`) instead of
      stepped: the loop sees every matching row and returns the blob of the last. */
  method GetDocumentBlobBound(v: Session, id: string) returns (r: Result<Option<SqlValue>>)
    requires v.Valid()
    ensures v.db == null ==> r == Err(VAULT_NOT_OPEN)
    ensures v.db != null ==>
      match TableIndex(v.db.tables, DOC_TABLE)
      case None => r == Err(NoSuchTable(DOC_TABLE))
      case Some(t) => r == Ok(BlobOfRow(LastMatch(Matching(v.db.tables[t].rows, 0, Text(id)))))
  {
    if v.db == null {
      return Err(VAULT_NOT_OPEN);
    }
    var t := TableIndex(v.db.tables, DOC_TABLE);
    if t.None? {
      return Err(NoSuchTable(DOC_TABLE));
    }
    var last := ReadLastRow(Matching(v.db.tables[t.value].rows, 0, Text(id)), false);
    return Ok(BlobOfRow(last));
  }

  /** `deleteDocument(id)`: removes the document under `id`, if any, and persists. */
  method DeleteDocument(v: Session, id: string, iv: Iv) returns (r: Result<bool>)
    requires v.Valid()
    modifies v.db, v.store
    ensures v.Valid()
    ensures v.db == null ==> r == Err(VAULT_NOT_OPEN) && v.store.records == old(v.store.records)
    ensures v.db != null ==>
      match TableIndex(old(v.db.tables), DOC_TABLE)
      case None =>
        r == Err(NoSuchTable(DOC_TABLE)) && v.db.tables == old(v.db.tables) && v.store.records == old(v.store.records)
      case Some(t) =>
        && r == Ok(true)
        && v.db.tables == old(v.db.tables)[t := old(v.db.tables)[t].(rows := Without(old(v.db.tables)[t].rows, 0, Text(id)))]
        && v.store.records == old(v.store.records)[v.blobId := Seal(v.key.value, iv, v.db.Export())]
  {
    if v.db == null {
      return Err(VAULT_NOT_OPEN);
    }
    var t := TableIndex(v.db.tables, DOC_TABLE);
    if t.None? {
      return Err(NoSuchTable(DOC_TABLE));
    }
    var table := v.db.tables[t.value];
    v.db.tables := v.db.tables[t.value := table.(rows := Without(table.rows, 0, Text(id)))];
    var _ := v.Persist(iv);
    return Ok(true);
  }

  /** `setPhoto(student_id, bytes, mime)`: one photo per student; a later call replaces
      mime type, size, time and bytes of the earlier one. */
  method SetPhoto(v: Session, studentId: string, bytes: BytesArg, mime: string, now: int, iv: Iv) returns (r: Result<bool>)
    requires v.Valid()
    modifies v.db, v.store
    ensures v.Valid()
    ensures v.db == null ==> r == Err(VAULT_NOT_OPEN) && v.store.records == old(v.store.records)
    ensures v.db != null && bytes.NotUint8Array? ==>
      r == Err(BYTES_ERROR) && v.db.tables == old(v.db.tables) && v.store.records == old(v.store.records)
    ensures v.db != null && bytes.Uint8Array? ==>
      match TableIndex(old(v.db.tables), PHOTO_TABLE)
      case None =>
        r == Err(NoSuchTable(PHOTO_TABLE)) && v.db.tables == old(v.db.tables) && v.store.records == old(v.store.records)
      case Some(t) =>
        && r == Ok(true)
        && v.db.tables == old(v.db.tables)[t := old(v.db.tables)[t].(rows := Upsert(old(v.db.tables)[t].rows, 0, PhotoRow(studentId, mime, bytes.bytes, now)))]
        && v.store.records == old(v.store.records)[v.blobId := Seal(v.key.value, iv, v.db.Export())]
  {
    if v.db == null {
      return Err(VAULT_NOT_OPEN);
    }
    if bytes.NotUint8Array? {
      return Err(BYTES_ERROR);
    }
    var t := TableIndex(v.db.tables, PHOTO_TABLE);
    if t.None? {
      return Err(NoSuchTable(PHOTO_TABLE));
    }
    var table := v.db.tables[t.value];
    v.db.tables := v.db.tables[t.value := table.(rows := Upsert(table.rows, 0, PhotoRow(studentId, mime, bytes.bytes, now)))];
    var _ := v.Persist(iv);
    return Ok(true);
  }

  /** `getPhoto(student_id)` as written: like `getDocumentBlob`, the loop starts after the
      first result row. */
  method GetPhoto(v: Session, studentId: string) returns (r: Result<Option<Photo>>)
    requires v.Valid()
    ensures v.db == null ==> r == Err(VAULT_NOT_OPEN)
    ensures v.db != null ==>
      match TableIndex(v.db.tables, PHOTO_TABLE)
      case None => r == Err(NoSuchTable(PHOTO_TABLE))
      case Some(t) => r == Ok(PhotoOfRow(LastAfterFirst(Matching(v.db.tables[t].rows, 0, Text(studentId)))))
  {
    if v.db == null {
      return Err(VAULT_NOT_OPEN);
    }
    var t := TableIndex(v.db.tables, PHOTO_TABLE);
    if t.None? {
      return Err(NoSuchTable(PHOTO_TABLE));
    }
    var last := ReadLastRow(Matching(v.db.tables[t.value].rows, 0, Text(studentId)), true);
    return Ok(PhotoOfRow(last));
  }

  /** `getPhoto(student_id)` with the statement bound instead of stepped. */
  method GetPhotoBound(v: Session, studentId: string) returns (r: Result<Option<Photo>>)
    requires v.Valid()
    ensures v.db == null ==> r == Err(VAULT_NOT_OPEN)
    ensures v.db != null ==>
      match TableIndex(v.db.tables, PHOTO_TABLE)
      case None => r == Err(NoSuchTable(PHOTO_TABLE))
      case Some(t) => r == Ok(PhotoOfRow(LastMatch(Matching(v.db.tables[t].rows, 0, Text(studentId)))))
  {
    if v.db == null {
      return Err(VAULT_NOT_OPEN);
    }
    var t := TableIndex(v.db.tables, PHOTO_TABLE);
    if t.None? {
      return Err(NoSuchTable(PHOTO_TABLE));
    }
    var last := ReadLastRow(Matching(v.db.tables[t.value].rows, 0, Text(studentId)), false);
    return Ok(PhotoOfRow(last));
  }

  /** `deletePhoto(student_id)`. */
  method DeletePhoto(v: Session, studentId: string, iv: Iv) returns (r: Result<bool>)
    requires v.Valid()
    modifies v.db, v.store
    ensures v.Valid()
    ensures v.db == null ==> r == Err(VAULT_NOT_OPEN) && v.store.records == old(v.store.records)
    ensures v.db != null ==>
      match TableIndex(old(v.db.tables), PHOTO_TABLE)
      case None =>
        r == Err(NoSuchTable(PHOTO_TABLE)) && v.db.tables == old(v.db.tables) && v.store.records == old(v.store.records)
      case Some(t) =>
        && r == Ok(true)
        && v.db.tables == old(v.db.tables)[t := old(v.db.tables)[t].(rows := Without(old(v.db.tables)[t].rows, 0, Text(studentId)))]
        && v.store.records == old(v.store.records)[v.blobId := Seal(v.key.value, iv, v.db.Export())]
  {
    if v.db == null {
      return Err(VAULT_NOT_OPEN);
    }
    var t := TableIndex(v.db.tables, PHOTO_TABLE);
    if t.None? {
      return Err(NoSuchTable(PHOTO_TABLE));
    }
    var table := v.db.tables[t.value];
    v.db.tables := v.db.tables[t.value := table.(rows := Without(table.rows, 0, Text(studentId)))];
    var _ := v.Persist(iv);
    return Ok(true);
  }
}
