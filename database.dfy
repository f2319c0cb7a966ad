/**
 * The persistence layer of package `database`: the nullable row shape, the
 * row-to-student conversion, the rows that `CreateStudent` and
 * `UpdateStudent` build, and the five store operations over a table of rows
 * keyed by id. SQL text and the driver are replaced by a map; the UUID
 * generator, the clock and backend failures are parameters.
 */
module Database {
  import opened Common
  import opened Student

  /** `sql.NullString`: a payload and a `Valid` flag, both always present. */
  datatype NullString = NullString(str: string, valid: bool)

  /** `sql.NullTime`: a payload and a `Valid` flag, both always present. */
  datatype NullTime = NullTime(time: Time, valid: bool)

  datatype StudentRow = StudentRow(
    id: string,
    fname: NullString,
    lname: NullString,
    email: NullString,
    gender: NullString,
    dateOfBirth: NullTime,
    address: NullString,
    createdBy: NullString,
    createdOn: NullTime,
    updatedBy: NullString,
    updatedOn: NullTime)

  /** The errors the operations wrap with `fmt.Errorf`, named by their message. */
  datatype DbError =
    | FailedToInsert        // "failed to insert Student" (insert and update)
    | FailedToCloseRows     // "failed to close rows" (LastInsertId)
    | FetchByUuidFailed     // "an error occurred fetching the student by uuid"
    | FetchStudentsFailed   // "fetchStudents"
    | FailedToDelete        // "failed to delete comment from the database"

  /** Reads every payload and never looks at a `Valid` flag. */
  function ConvertStudentRowToStudent(s: StudentRow): Student
  {
    Student(
      s.id, s.fname.str, s.lname.str, s.email.str, s.gender.str,
      CustomTime(s.dateOfBirth.time), s.address.str, s.createdBy.str,
      s.createdOn.time, s.updatedBy.str, s.updatedOn.time)
  }

  /**
   * The row `CreateStudent` inserts, for a student whose id is already
   * replaced; `createdAt` and `updatedAt` are its two readings of the clock.
   */
  function CreateRow(std: Student, createdAt: Time, updatedAt: Time): StudentRow
  {
    StudentRow(
      std.id,
      NullString(std.fname, true),
      NullString(std.lname, true),
      NullString(std.email, true),
      NullString(std.gender, true),
      NullTime(std.dateOfBirth.time, !std.dateOfBirth.IsZero()),
      NullString(std.address, true),
      NullString(std.createdBy, true),
      NullTime(createdAt, true),
      NullString(std.updatedBy, true),
      NullTime(updatedAt, false))
  }

  /**
   * The row `UpdateStudent` writes: the id comes from the path, not from
   * `std`; `createdAt` and `updatedAt` are its two readings of the clock.
   */
  function UpdateRow(id: string, std: Student, createdAt: Time, updatedAt: Time): StudentRow
  {
    StudentRow(
      id,
      NullString(std.fname, true),
      NullString(std.lname, true),
      NullString(std.email, true),
      NullString(std.gender, true),
      NullTime(std.dateOfBirth.time, !std.dateOfBirth.IsZero()),
      NullString(std.address, true),
      NullString(std.createdBy, true),
      NullTime(createdAt, true),
      NullString(std.updatedBy, true),
      NullTime(updatedAt, true))
  }

  /**
   * What a column keeps of a wrapper and `Scan` gives back: the driver
   * writes NULL for a wrapper that is not `Valid`, and scanning NULL yields
   * the zero payload with `Valid` false.
   */
  function StoredString(n: NullString): NullString
  {
    if n.valid then n else NullString("", false)
  }

  function StoredTime(n: NullTime): NullTime
  {
    if n.valid then n else NullTime(ZeroTime, false)
  }

  /** A row as written to the table and scanned back. */
  function Stored(row: StudentRow): StudentRow
  {
    StudentRow(
      row.id,
      StoredString(row.fname), StoredString(row.lname), StoredString(row.email),
      StoredString(row.gender), StoredTime(row.dateOfBirth), StoredString(row.address),
      StoredString(row.createdBy), StoredTime(row.createdOn), StoredString(row.updatedBy),
      StoredTime(row.updatedOn))
  }

  /** Every null column of the row carries the zero payload, as after a scan. */
  predicate NullsAreZero(row: StudentRow)
  {
    && (!row.fname.valid ==> row.fname.str == "")
    && (!row.lname.valid ==> row.lname.str == "")
    && (!row.email.valid ==> row.email.str == "")
    && (!row.gender.valid ==> row.gender.str == "")
    && (!row.dateOfBirth.valid ==> row.dateOfBirth.time == ZeroTime)
    && (!row.address.valid ==> row.address.str == "")
    && (!row.createdBy.valid ==> row.createdBy.str == "")
    && (!row.createdOn.valid ==> row.createdOn.time == ZeroTime)
    && (!row.updatedBy.valid ==> row.updatedBy.str == "")
    && (!row.updatedOn.valid ==> row.updatedOn.time == ZeroTime)
  }

  /** Two rows that agree on id and on every payload, whatever their flags. */
  predicate SamePayloads(s: StudentRow, t: StudentRow)
  {
    && s.id == t.id
    && s.fname.str == t.fname.str && s.lname.str == t.lname.str
    && s.email.str == t.email.str && s.gender.str == t.gender.str
    && s.dateOfBirth.time == t.dateOfBirth.time && s.address.str == t.address.str
    && s.createdBy.str == t.createdBy.str && s.createdOn.time == t.createdOn.time
    && s.updatedBy.str == t.updatedBy.str && s.updatedOn.time == t.updatedOn.time
  }

  /** The conversion is determined by the payloads alone: `Valid` is ignored. */
  lemma ConvertIgnoresValid(s: StudentRow, t: StudentRow)
    ensures SamePayloads(s, t) <==> ConvertStudentRowToStudent(s) == ConvertStudentRowToStudent(t)
  {
  }

  /** A scanned row's null field converts to the empty string or the zero time. */
  lemma ConvertNullIsZero(row: StudentRow)
    ensures NullsAreZero(Stored(row))
    ensures var std := ConvertStudentRowToStudent(Stored(row));
      && (!row.fname.valid ==> std.fname == "")
      && (!row.dateOfBirth.valid ==> std.dateOfBirth.IsZero())
      && (!row.createdOn.valid ==> std.createdOn.IsZero())
      && (!row.updatedOn.valid ==> std.updatedOn.IsZero())
  {
  }

  /** The null policy of the create path. */
  lemma CreateRowNullPolicy(std: Student, createdAt: Time, updatedAt: Time)
    ensures var row := CreateRow(std, createdAt, updatedAt);
      && row.id == std.id
      && row.fname.valid && row.lname.valid && row.email.valid && row.gender.valid
      && row.address.valid && row.createdBy.valid && row.updatedBy.valid
      && (row.dateOfBirth.valid <==> !std.dateOfBirth.IsZero())
      && row.createdOn == NullTime(createdAt, true)
      && row.updatedOn == NullTime(updatedAt, false)
  {
  }

  /** The null policy of the update path: both stamps are present, each with its own clock reading. */
  lemma UpdateRowNullPolicy(id: string, std: Student, createdAt: Time, updatedAt: Time)
    ensures var row := UpdateRow(id, std, createdAt, updatedAt);
      && row.id == id
      && row.fname.valid && row.lname.valid && row.email.valid && row.gender.valid
      && row.address.valid && row.createdBy.valid && row.updatedBy.valid
      && (row.dateOfBirth.valid <==> !std.dateOfBirth.IsZero())
      && row.createdOn == NullTime(createdAt, true)
      && row.updatedOn == NullTime(updatedAt, true)
  {
  }

  /**
   * Create, then read back: every client field survives, empty strings and a
   * zero birth date included; the id is the generated one, `CreatedOn` is
   * the first clock reading and `UpdatedOn` is zero, whatever the second.
   */
  lemma CreateRoundTrip(std: Student, newId: string, createdAt: Time, updatedAt: Time)
    ensures ConvertStudentRowToStudent(Stored(CreateRow(std.(id := newId), createdAt, updatedAt)))
         == std.(id := newId, createdOn := createdAt, updatedOn := ZeroTime)
  {
  }

  /**
   * The student `UpdateStudent` returns is the input with the path id and
   * both stamps set from the two clock readings, and it is exactly what a
   * later read gives.
   */
  lemma UpdateRoundTrip(id: string, std: Student, createdAt: Time, updatedAt: Time)
    ensures ConvertStudentRowToStudent(UpdateRow(id, std, createdAt, updatedAt))
         == std.(id := id, createdOn := createdAt, updatedOn := updatedAt)
    ensures ConvertStudentRowToStudent(Stored(UpdateRow(id, std, createdAt, updatedAt)))
         == ConvertStudentRowToStudent(UpdateRow(id, std, createdAt, updatedAt))
  {
  }

  /**
   * The table of the `student` relation, keyed by the primary key `id`.
   */
  class Database {
    var rows: map<string, StudentRow>

    /** Every row sits under its own id and carries only what a column keeps. */
    ghost predicate Valid()
      reads this
    {
      forall id :: id in rows ==> rows[id].id == id && Stored(rows[id]) == rows[id]
    }

    constructor ()
      ensures Valid() && rows == map[]
    {
      rows := map[];
    }

    /**
     * `CreateStudent`: `newId` stands for `uuid.NewV4()`, `createdAt` and
     * `updatedAt` for its two calls of `time.Now()`; `execFails` for an insert error from the backend and
     * `lastIdFails` for an error from `LastInsertId`, which comes after the
     * row is written. An id already in the table violates the primary key.
     */
    method CreateStudent(
      std: Student, newId: string, createdAt: Time, updatedAt: Time, execFails: bool, lastIdFails: bool)
      returns (r: Student, err: Option<DbError>)
      requires Valid()
      modifies this
      ensures Valid()
      ensures var inserted := !execFails && newId !in old(rows);
        rows == if inserted then old(rows)[newId := Stored(CreateRow(std.(id := newId), createdAt, updatedAt))] else old(rows)
      ensures err == if execFails || newId in old(rows) then Some(FailedToInsert)
                     else if lastIdFails then Some(FailedToCloseRows)
                     else None
      ensures err.Some? ==> r == ZeroStudent
      ensures err.None? ==> r == std.(id := newId)
    {
      var s := std.(id := newId);
      var postRow := CreateRow(s, createdAt, updatedAt);
      if execFails || s.id in rows {
        return ZeroStudent, Some(FailedToInsert);
      }
      rows := rows[s.id := Stored(postRow)];
      if lastIdFails {
        return ZeroStudent, Some(FailedToCloseRows);
      }
      return s, None;
    }

    /**
     * `GetStudent`: `Scan` fails when no row has the id or the query itself
     * fails (`queryFails`).
     */
    method GetStudent(id: string, queryFails: bool) returns (r: Student, err: Option<DbError>)
      requires Valid()
      ensures err.None? <==> !queryFails && id in rows
      ensures err.Some? ==> err.value == FetchByUuidFailed && r == ZeroStudent
      ensures err.None? ==> r == ConvertStudentRowToStudent(rows[id]) && r.id == id
    {
      if queryFails || id !in rows {
        return ZeroStudent, Some(FetchByUuidFailed);
      }
      var stdRow := rows[id];
      return ConvertStudentRowToStudent(stdRow), None;
    }

    /** The rows are a selection of the table, each under its own id. */
    ghost predicate SelectedFrom(fetched: seq<StudentRow>)
      reads this
    {
      forall i :: 0 <= i < |fetched| ==> fetched[i].id in rows && rows[fetched[i].id] == fetched[i]
    }

    /**
     * `GetStudents`: `fetched` is what the `SELECT` returned, in the store's
     * order, or `None` when it failed.
     */
    method GetStudents(fetched: Option<seq<StudentRow>>) returns (r: seq<Student>, err: Option<DbError>)
      ensures fetched.None? ==> r == [] && err == Some(FetchStudentsFailed)
      ensures fetched.Some? ==> err.None? && |r| == |fetched.value|
      ensures fetched.Some? ==> forall i :: 0 <= i < |r| ==> r[i] == ConvertStudentRowToStudent(fetched.value[i])
      ensures fetched.Some? && SelectedFrom(fetched.value) ==>
        forall i :: 0 <= i < |r| ==> r[i].id in rows && r[i] == ConvertStudentRowToStudent(rows[r[i].id])
    {
      if fetched.None? {
        return [], Some(FetchStudentsFailed);
      }
      var stdRows := fetched.value;
      var students := new Student[|stdRows|];
      for i := 0 to |stdRows|
        invariant forall k :: 0 <= k < i ==> students[k] == ConvertStudentRowToStudent(stdRows[k])
      {
        var stdRow := stdRows[i];
        students[i] := Student(
          stdRow.id, stdRow.fname.str, stdRow.lname.str, stdRow.email.str, stdRow.gender.str,
          CustomTime(stdRow.dateOfBirth.time), stdRow.address.str, stdRow.createdBy.str,
          stdRow.createdOn.time, stdRow.updatedBy.str, stdRow.updatedOn.time);
      }
      return students[..], None;
    }

    /** `DeleteStudent`: no rows-affected check, so an absent id is no error. */
    method DeleteStudent(id: string, execFails: bool) returns (err: Option<DbError>)
      requires Valid()
      modifies this
      ensures Valid()
      ensures rows == if execFails then old(rows) else old(rows) - {id}
      ensures err == if execFails then Some(FailedToDelete) else None
    {
      if execFails {
        return Some(FailedToDelete);
      }
      rows := rows - {id};
      return None;
    }

    /**
     * `UpdateStudent`: `UPDATE ... WHERE id` changes nothing when no row has
     * the id, and no rows-affected check follows, so that case succeeds too.
     * `createdAt` and `updatedAt` stand for its two calls of `time.Now()`.
     */
    method UpdateStudent(
      id: string, std: Student, createdAt: Time, updatedAt: Time, execFails: bool, lastIdFails: bool)
      returns (r: Student, err: Option<DbError>)
      requires Valid()
      modifies this
      ensures Valid()
      ensures rows == if !execFails && id in old(rows) then old(rows)[id := Stored(UpdateRow(id, std, createdAt, updatedAt))]
                      else old(rows)
      ensures err == if execFails then Some(FailedToInsert)
                     else if lastIdFails then Some(FailedToCloseRows)
                     else None
      ensures err.Some? ==> r == ZeroStudent
      ensures err.None? ==> r == std.(id := id, createdOn := createdAt, updatedOn := updatedAt)
    {
      var stdRow := UpdateRow(id, std, createdAt, updatedAt);
      if execFails {
        return ZeroStudent, Some(FailedToInsert);
      }
      if id in rows {
        rows := rows[id := Stored(stdRow)];
      }
      if lastIdFails {
        return ZeroStudent, Some(FailedToCloseRows);
      }
      UpdateRoundTrip(id, std, createdAt, updatedAt);
      return ConvertStudentRowToStudent(stdRow), None;
    }
  }
}
