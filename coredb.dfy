/** The Core database's query of scripts/db.js that the header's avatars are built
    from: `listStudents`. */
module CoreDb {
  import opened Wrappers
  import opened Engine
  import opened Session

  const STUDENT_TABLE := "student"

  /** What `db.exec` on the null handle throws: listStudents does not check that the
      Core database is open. */
  const NULL_HANDLE_ERROR := "TypeError: Cannot read properties of null (reading 'exec')"

  const STUDENT_COLUMNS := ["id", "vorname", "name", "geburtstag"]
  const STUDENT_POSITIONS: seq<nat> := [0, 1, 2, 3]

  lemma StudentColumnsDistinct()
    ensures Distinct(STUDENT_COLUMNS)
  {
    forall i, j | 0 <= i < j < |STUDENT_COLUMNS| ensures STUDENT_COLUMNS[i] != STUDENT_COLUMNS[j] {
      assert STUDENT_COLUMNS[i][0] != STUDENT_COLUMNS[j][0];
    }
  }

  /** `listStudents()`: one object `{id, vorname, name, geburtstag}` per student row. */
  method ListStudents(s: Session) returns (r: Result<seq<RowObject>>)
    requires s.Valid()
    ensures s.db == null ==> r == Err(NULL_HANDLE_ERROR)
    ensures s.db != null ==>
      match TableIndex(s.db.tables, STUDENT_TABLE)
      case None => r == Err(NoSuchTable(STUDENT_TABLE))
      case Some(t) => r == Ok(RowObjects(ExecResult(STUDENT_COLUMNS, ProjectAll(s.db.tables[t].rows, STUDENT_POSITIONS))))
  {
    if s.db == null {
      return Err(NULL_HANDLE_ERROR);
    }
    var t := TableIndex(s.db.tables, STUDENT_TABLE);
    if t.None? {
      return Err(NoSuchTable(STUDENT_TABLE));
    }
    var res := ExecResult(STUDENT_COLUMNS, ProjectAll(s.db.tables[t.value].rows, STUDENT_POSITIONS));
    return Ok(RowObjects(res));
  }

  /** The listing has one object per student row, and the object for row `i` carries
      that row's id, first name, name and birthday under their column names. */
  lemma ListedStudent(rows: seq<Row>, i: nat, j: nat)
    requires i < |rows| && j < |STUDENT_COLUMNS|
    ensures |RowObjects(ExecResult(STUDENT_COLUMNS, ProjectAll(rows, STUDENT_POSITIONS)))| == |rows|
    ensures STUDENT_COLUMNS[j] in RowObjects(ExecResult(STUDENT_COLUMNS, ProjectAll(rows, STUDENT_POSITIONS)))[i]
    ensures RowObjects(ExecResult(STUDENT_COLUMNS, ProjectAll(rows, STUDENT_POSITIONS)))[i][STUDENT_COLUMNS[j]] == Cell(rows[i], j)
  {
    StudentColumnsDistinct();
    SelectedObject(STUDENT_COLUMNS, STUDENT_POSITIONS, rows, i, j);
  }
}
