// The coach's students screen: the students file names the coach's
// students, the users' data file gives each student's row with a BMI.

module MyStudents {
  import opened JavaText
  import opened JavaNumbers
  import opened OurCoaches
  import opened SessionRequests
  import AboutMe

  /**
   * The ids of the coach's students as the screen reads them: the later
   * fields of the first line that starts with the coach's id, with no `;`
   * after it.
   */
  function CoachStudentUuids(lines: seq<string>, coachID: string): seq<string>
  {
    if |lines| == 0 then []
    else if StartsWith(lines[0], coachID) then LaterFields(Split(lines[0], ';'))
    else CoachStudentUuids(lines[1..], coachID)
  }

  /** `calculateBMI`: weight over height squared, height in metres; no guard against a zero height. */
  function CalculateBmi(weight: real, height: real): (r: JDouble)
    ensures height != 0.0 ==> r.Finite? && r.v * (height * height) == weight
    ensures height == 0.0 ==> !r.Finite?
  {
    assert height != 0.0 ==> height * height > 0.0;
    Divide(weight, height * height)
  }

  /** One row of the students table, before `String.format` renders the numbers. */
  datatype StudentRow = StudentRow(name: string, weight: real, heightCm: real, age: Int32, gender: string, bmi: JDouble)

  /**
   * A users' data line of a listed student read into a row; `None` when the
   * line is too short or a number does not parse, on which the screen's
   * reading stops with an uncaught exception.
   */
  function StudentRowOf(nf: Numerals, parts: seq<string>): Option<StudentRow>
  {
    if |parts| < 6 then None
    else
      var weight := ParseDouble(nf, parts[2]);
      var heightCm := ParseDouble(nf, parts[3]);
      var age := ParseInt(parts[4]);
      if weight.None? || heightCm.None? || age.None? then None
      else
        var height := heightCm.value / 100.0;
        Some(StudentRow(parts[1], weight.value, height * 100.0, age.value, parts[5], CalculateBmi(weight.value, height)))
  }

  /** How one users' data line is read: skipped, a row, or a crash. */
  datatype LineReading = Skipped | Row(row: StudentRow) | Crash

  function ReadStudentLine(nf: Numerals, line: string, uuids: seq<string>): LineReading
  {
    var parts := Split(line, ';');
    if |parts| == 0 then Crash
    else if parts[0] !in uuids then Skipped
    else
      var row := StudentRowOf(nf, parts);
      if row.None? then Crash else Row(row.value)
  }

  /** The rows in the order of the users' data file, or `None` when some line crashes the reading. */
  function StudentRows(nf: Numerals, users: seq<string>, uuids: seq<string>): Option<seq<StudentRow>>
  {
    if |users| == 0 then Some([])
    else Then(StudentRows(nf, users[..|users| - 1], uuids), ReadStudentLine(nf, users[|users| - 1], uuids))
  }

  /** The rows so far followed by the reading of one more line. */
  function Then(rows: Option<seq<StudentRow>>, last: LineReading): Option<seq<StudentRow>>
  {
    if rows.None? || last.Crash? then None
    else Some(rows.value + (if last.Row? then [last.row] else []))
  }

  /**
   * `getCoachStudents`: the ids the coach's line lists, then a row for each
   * users' data line of one of them. A missing file reads as empty; `None`
   * is the exception that ends the reading.
   */
  method GetCoachStudents(nf: Numerals, coachID: string, studentsFile: Option<seq<string>>, usersFile: Option<seq<string>>)
    returns (students: Option<seq<StudentRow>>)
    ensures students == StudentRows(nf, LinesOf(usersFile), CoachStudentUuids(LinesOf(studentsFile), coachID))
  {
    var studentUUIDs := ReadCoachStudentUuids(LinesOf(studentsFile), coachID);
    students := ReadStudentRows(nf, LinesOf(usersFile), studentUUIDs);
  }

  /** The loop over the users' data file; a crash ends it. */
  method ReadStudentRows(nf: Numerals, users: seq<string>, studentUUIDs: seq<string>) returns (students: Option<seq<StudentRow>>)
    ensures students == StudentRows(nf, users, studentUUIDs)
  {
    var rows: seq<StudentRow> := [];
    var i := 0;
    while i < |users|
      invariant 0 <= i <= |users|
      invariant StudentRows(nf, users[..i], studentUUIDs) == Some(rows)
    {
      var reading := ReadLine(nf, users[i], studentUUIDs);
      StudentRowsStep(nf, users, studentUUIDs, i);
      if reading.Crash? {
        CrashStays(nf, users, studentUUIDs, i + 1);
        return None;
      }
      if reading.Row? {
        rows := rows + [reading.row];
      } else {
        assert rows + [] == rows;
      }
      i := i + 1;
    }
    assert users[..i] == users;
    return Some(rows);
  }

  /** The loop over the students file, up to the coach's line. */
  method ReadCoachStudentUuids(lines: seq<string>, coachID: string) returns (studentUUIDs: seq<string>)
    ensures studentUUIDs == CoachStudentUuids(lines, coachID)
  {
    studentUUIDs := [];
    var i := 0;
    while i < |lines|
      invariant 0 <= i <= |lines|
      invariant CoachStudentUuids(lines, coachID) == CoachStudentUuids(lines[i..], coachID)
    {
      if StartsWith(lines[i], coachID) {
        studentUUIDs := CollectLaterFields(Split(lines[i], ';'));
        return;
      }
      assert lines[i..][1..] == lines[i + 1..];
      i := i + 1;
    }
  }

  /** The body of the loop over users' data lines. */
  method ReadLine(nf: Numerals, line: string, studentUUIDs: seq<string>) returns (reading: LineReading)
    ensures reading == ReadStudentLine(nf, line, studentUUIDs)
  {
    var parts := Split(line, ';');
    if |parts| == 0 {
      return Crash;
    }
    if parts[0] in studentUUIDs {
      if |parts| < 6 {
        return Crash;
      }
      var name := parts[1];
      var weight := ParseDouble(nf, parts[2]);
      if weight.None? {
        return Crash;
      }
      var heightCm := ParseDouble(nf, parts[3]);
      if heightCm.None? {
        return Crash;
      }
      var height := heightCm.value / 100.0;
      var age := ParseInt(parts[4]);
      if age.None? {
        return Crash;
      }
      var gender := parts[5];
      var bmi := CalculateBmi(weight.value, height);
      return Row(StudentRow(name, weight.value, height * 100.0, age.value, gender, bmi));
    }
    return Skipped;
  }

  // ----- properties -----

  /** One more line of the users' data file read. */
  lemma StudentRowsStep(nf: Numerals, users: seq<string>, uuids: seq<string>, i: nat)
    requires i < |users|
    ensures StudentRows(nf, users[..i + 1], uuids) == Then(StudentRows(nf, users[..i], uuids), ReadStudentLine(nf, users[i], uuids))
  {
    assert users[..i + 1][..i] == users[..i] && users[..i + 1][i] == users[i];
  }

  /** A crash in a prefix of the file is a crash of the whole file. */
  lemma {:induction false} CrashStays(nf: Numerals, users: seq<string>, uuids: seq<string>, j: nat)
    requires j <= |users| && StudentRows(nf, users[..j], uuids).None?
    ensures StudentRows(nf, users, uuids).None?
    decreases |users| - j
  {
    if j < |users| {
      assert users[..j + 1][..j] == users[..j];
      CrashStays(nf, users, uuids, j + 1);
    } else {
      assert users[..j] == users;
    }
  }

  /** The reading succeeds exactly when no line crashes it. */
  lemma StudentRowsSucceed(nf: Numerals, users: seq<string>, uuids: seq<string>)
    ensures StudentRows(nf, users, uuids).Some? <==> forall k :: 0 <= k < |users| ==> !ReadStudentLine(nf, users[k], uuids).Crash?
  {
    if StudentRows(nf, users, uuids).Some? {
      forall k | 0 <= k < |users|
        ensures !ReadStudentLine(nf, users[k], uuids).Crash?
      {
        if ReadStudentLine(nf, users[k], uuids).Crash? {
          CrashingLine(nf, users, uuids, k);
        }
      }
    } else if forall k :: 0 <= k < |users| ==> !ReadStudentLine(nf, users[k], uuids).Crash? {
      StudentRowsOfNoCrash(nf, users, uuids);
    }
  }

  /** A line that crashes the reading crashes the whole file. */
  lemma CrashingLine(nf: Numerals, users: seq<string>, uuids: seq<string>, k: nat)
    requires k < |users| && ReadStudentLine(nf, users[k], uuids).Crash?
    ensures StudentRows(nf, users, uuids).None?
  {
    StudentRowsStep(nf, users, uuids, k);
    CrashStays(nf, users, uuids, k + 1);
  }

  /** With no crashing line the reading succeeds. */
  lemma {:induction false} StudentRowsOfNoCrash(nf: Numerals, users: seq<string>, uuids: seq<string>)
    requires forall k :: 0 <= k < |users| ==> !ReadStudentLine(nf, users[k], uuids).Crash?
    ensures StudentRows(nf, users, uuids).Some?
  {
    if |users| > 0 {
      var front := users[..|users| - 1];
      forall k | 0 <= k < |front|
        ensures !ReadStudentLine(nf, front[k], uuids).Crash?
      {
        assert front[k] == users[k];
      }
      StudentRowsOfNoCrash(nf, front, uuids);
      assert !ReadStudentLine(nf, users[|users| - 1], uuids).Crash?;
    }
  }

  /** Each row of a successful reading comes from the data line of a listed student. */
  lemma {:induction false} StudentRowsOfListed(nf: Numerals, users: seq<string>, uuids: seq<string>, row: StudentRow)
    requires StudentRows(nf, users, uuids).Some? && row in StudentRows(nf, users, uuids).value
    ensures exists k :: 0 <= k < |users| && ReadStudentLine(nf, users[k], uuids) == Row(row) && Split(users[k], ';')[0] in uuids
  {
    var front := users[..|users| - 1];
    if row in StudentRows(nf, front, uuids).value {
      StudentRowsOfListed(nf, front, uuids, row);
      var k :| 0 <= k < |front| && ReadStudentLine(nf, front[k], uuids) == Row(row) && Split(front[k], ';')[0] in uuids;
      assert users[k] == front[k];
    } else {
      assert ReadStudentLine(nf, users[|users| - 1], uuids) == Row(row);
    }
  }

  /** Every listed student's data line gives its row in a successful reading. */
  lemma {:induction false} StudentRowOfEveryListed(nf: Numerals, users: seq<string>, uuids: seq<string>, k: nat)
    requires StudentRows(nf, users, uuids).Some?
    requires k < |users| && ReadStudentLine(nf, users[k], uuids).Row?
    ensures ReadStudentLine(nf, users[k], uuids).row in StudentRows(nf, users, uuids).value
  {
    if k < |users| - 1 {
      StudentRowOfEveryListed(nf, users[..|users| - 1], uuids, k);
    }
  }

  /**
   * The coach's table and the profile screen agree: for a positive height
   * in centimetres, the students table's BMI is the one the profile's gauge
   * shows.
   */
  lemma BmiAgreesWithProfile(weight: real, heightCm: real)
    requires heightCm > 0.0
    ensures CalculateBmi(weight, heightCm / 100.0) == Finite(AboutMe.ShownBmi(weight, heightCm).value)
  {
  }

  // ----- the coach-id prefix test -----

  /**
   * The students file `c10;u2` after coach `c1` accepted `u1`: the screen
   * of `c1` reads the line of `c10`, so it lists `u2`, not `u1`.
   */
  lemma PrefixCoachReadsOtherLine()
    ensures MovedStudents(["c10;u2"], "c1", "u1") == ["c10;u2", "c1;u1"]
    ensures CoachStudentUuids(MovedStudents(["c10;u2"], "c1", "u1"), "c1") == ["u2"]
  {
    PrefixCoachMovedFile();
    PrefixCoachFirstLine();
  }

  /** The line of `c10` is not a line of `c1` for the accepting screen, so `c1` gets a line of its own. */
  lemma PrefixCoachMovedFile()
    ensures MovedStudents(["c10;u2"], "c1", "u1") == ["c10;u2", "c1;u1"]
  {
    PrefixCoachHasNoLine();
    assert MovedAll(["c10;u2"], "c1", "u1") == MovedAll([], "c1", "u1") + [MovedLine("c10;u2", "c1", "u1")];
    assert MovedAll(["c10;u2"], "c1", "u1") == ["c10;u2"];
    assert "c1" + ";" + "u1" == "c1;u1";
  }

  /** The accepting screen finds no line of `c1` in `c10;u2`. */
  lemma PrefixCoachHasNoLine()
    ensures !IsCoachLine("c10;u2", "c1")
    ensures !HasCoachLine(["c10;u2"], "c1")
  {
    assert "c1" + ";" == "c1;";
    assert "c10;u2"[..3] == "c10";
    assert "c10"[2] != "c1;"[2];
    assert ["c10;u2"][..0] == [];
  }

  /** The prefix test of the students screen stops at the line of `c10`. */
  lemma PrefixCoachFirstLine()
    ensures CoachStudentUuids(["c10;u2", "c1;u1"], "c1") == ["u2"]
  {
    assert StartsWith("c10;u2", "c1") by {
      assert "c10;u2"[..2] == "c1";
    }
    assert Join(["c10", "u2"], ';') == "c10;u2";
    SplitOfJoin(["c10", "u2"], ';');
  }

  /**
   * With the coach's line found by its id and `;` (as on the other coach
   * screens), a student accepted for the first time is listed.
   */
  lemma AcceptedStudentListed(students: seq<string>, coachID: string, uuid: string)
    requires ';' !in uuid && uuid != ""
    requires forall k :: 0 <= k < |students| && IsCoachLine(students[k], coachID) ==> !Contains(students[k], ";" + uuid)
    ensures uuid in CoachLineUuids(MovedStudents(students, coachID, uuid), coachID)
  {
    var r := MovedStudents(students, coachID, uuid);
    var k: nat;
    var line: string;
    if HasCoachLine(students, coachID) {
      k := FirstCoachLine(students, coachID);
      line := students[k];
      CoachLineExtended(line, coachID, ";" + uuid);
      assert r[k] == line + ";" + uuid == line + (";" + uuid);
    } else {
      k := |students|;
      line := coachID;
      assert (coachID + ";")[..|coachID + ";"|] == coachID + ";";
      forall j | 0 <= j < k
        ensures !IsCoachLine(students[j], coachID)
      {
        if IsCoachLine(students[j], coachID) {
          HasCoachLineOfPrefix(students, coachID, j + 1);
        }
      }
    }
    assert r[k] == line + [';'] + uuid;
    AppendedUuidListed(r, coachID, uuid, k, line);
  }

  // ----- the `;uuid` substring test -----

  /**
   * The students file `c1;u10` after coach `c1` accepted `u1`: the line
   * holds the text `;u1`, so nothing is appended and `u1` is not listed.
   */
  lemma SubstringStudentNotListed()
    ensures MovedStudents(["c1;u10"], "c1", "u1") == ["c1;u10"]
    ensures "u1" !in CoachLineUuids(MovedStudents(["c1;u10"], "c1", "u1"), "c1")
  {
    assert IsCoachLine("c1;u10", "c1") by {
      assert "c1;u10"[..|"c1" + ";"|] == "c1" + ";";
    }
    assert Contains("c1;u10", ";" + "u1") by {
      assert "c1;u10" == "c1" + ";u1" + "0";
      assert OccursAt("c1;u10", ";" + "u1", 2);
      ContainsIff("c1;u10", ";" + "u1");
    }
    assert MovedAll(["c1;u10"], "c1", "u1") == MovedAll([], "c1", "u1") + [MovedLine("c1;u10", "c1", "u1")];
    assert HasCoachLine(["c1;u10"], "c1") by {
      assert ["c1;u10"][..0] == [];
    }
    assert MovedStudents(["c1;u10"], "c1", "u1") == ["c1;u10"] + [];
    assert Join(["c1", "u10"], ';') == "c1;u10";
    SplitOfJoin(["c1", "u10"], ';');
    assert CoachLineUuids(["c1;u10"], "c1") == ["u10"];
  }

  /** A students-file line after accepting, with the student's id compared field by field. */
  function FieldMovedLine(line: string, coachID: string, uuid: string): string
  {
    if IsCoachLine(line, coachID) && uuid !in LaterFields(Split(line, ';')) then line + ";" + uuid else line
  }

  /** The students file after accepting, with the student's id compared field by field. */
  function FieldMovedStudents(lines: seq<string>, coachID: string, uuid: string): seq<string>
  {
    seq(|lines|, k requires 0 <= k < |lines| => FieldMovedLine(lines[k], coachID, uuid))
      + (if HasCoachLine(lines, coachID) then [] else [coachID + ";" + uuid])
  }

  /** With the id compared field by field, every accepted student is listed, whatever the file held. */
  lemma AcceptedStudentAlwaysListed(students: seq<string>, coachID: string, uuid: string)
    requires ';' !in uuid && uuid != ""
    ensures uuid in CoachLineUuids(FieldMovedStudents(students, coachID, uuid), coachID)
  {
    var r := FieldMovedStudents(students, coachID, uuid);
    if HasCoachLine(students, coachID) {
      var k := FirstCoachLine(students, coachID);
      var line := students[k];
      assert forall j :: 0 <= j < k ==> r[j] == students[j];
      if uuid in LaterFields(Split(line, ';')) {
        assert r[k] == line;
        CoachLineUuidsOfFirst(r, coachID, k);
      } else {
        CoachLineExtended(line, coachID, ";" + uuid);
        assert r[k] == line + ";" + uuid == line + (";" + uuid);
        assert r[k] == line + [';'] + uuid;
        AppendedUuidListed(r, coachID, uuid, k, line);
      }
    } else {
      var k := |students|;
      assert (coachID + ";")[..|coachID + ";"|] == coachID + ";";
      forall j | 0 <= j < k
        ensures !IsCoachLine(r[j], coachID)
      {
        if IsCoachLine(students[j], coachID) {
          HasCoachLineOfPrefix(students, coachID, j + 1);
        }
      }
      assert r[k] == coachID + [';'] + uuid;
      AppendedUuidListed(r, coachID, uuid, k, coachID);
    }
  }
}
