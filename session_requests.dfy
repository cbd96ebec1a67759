// The coach's session-requests screen: the pending requests read from the
// requests file and the users' data file, and accepting or dismissing one,
// which rewrites the students file and the requests file.

module SessionRequests {
  import opened JavaText
  import opened JavaNumbers
  import opened OurCoaches

  // ----- reading the requests -----

  /** The fields after the first, which a loop from index 1 visits (none when `split` found no field). */
  function LaterFields(parts: seq<string>): seq<string>
  {
    if |parts| == 0 then [] else parts[1..]
  }

  /** The users' ids a coach file lists for the coach: the fields after the id on the coach's first line. */
  function CoachLineUuids(lines: seq<string>, coachID: string): seq<string>
  {
    if |lines| == 0 then []
    else if IsCoachLine(lines[0], coachID) then LaterFields(Split(lines[0], ';'))
    else CoachLineUuids(lines[1..], coachID)
  }

  /** One row of the requests table; the id is the hidden last column. */
  datatype RequestRow = RequestRow(name: string, weight: string, height: string, age: string, gender: string, uuid: string)

  /** A users' data line of someone whose id is in `uuids`, with the six fields a row needs. */
  predicate IsRequesterLine(line: string, uuids: seq<string>)
  {
    var parts := Split(line, ';');
    |parts| >= 6 && parts[0] in uuids
  }

  function RowOf(parts: seq<string>): RequestRow
    requires |parts| >= 6
  {
    RequestRow(parts[1], parts[2], parts[3], parts[4], parts[5], parts[0])
  }

  /** The rows, in the order of the users' data file. */
  function RequestRows(users: seq<string>, uuids: seq<string>): seq<RequestRow>
  {
    if |users| == 0 then []
    else
      var last := users[|users| - 1];
      RequestRows(users[..|users| - 1], uuids)
        + (if IsRequesterLine(last, uuids) then [RowOf(Split(last, ';'))] else [])
  }

  /**
   * `getCoachRequests`: the ids on the coach's first line of the requests
   * file, then a row for each users' data line of one of them. A missing
   * file reads as empty.
   */
  method GetCoachRequests(coachID: string, requestsFile: Option<seq<string>>, usersFile: Option<seq<string>>)
    returns (requests: seq<RequestRow>)
    ensures requests == RequestRows(LinesOf(usersFile), CoachLineUuids(LinesOf(requestsFile), coachID))
  {
    var studentUUIDs := ReadCoachLineUuids(LinesOf(requestsFile), coachID);
    requests := ReadRequestRows(LinesOf(usersFile), studentUUIDs);
  }

  /** The loop over the requests file, up to the coach's first line. */
  method ReadCoachLineUuids(lines: seq<string>, coachID: string) returns (studentUUIDs: seq<string>)
    ensures studentUUIDs == CoachLineUuids(lines, coachID)
  {
    studentUUIDs := [];
    var i := 0;
    while i < |lines|
      invariant 0 <= i <= |lines|
      invariant CoachLineUuids(lines, coachID) == CoachLineUuids(lines[i..], coachID)
    {
      if StartsWith(lines[i], coachID + ";") {
        studentUUIDs := CollectLaterFields(Split(lines[i], ';'));
        return;
      }
      assert lines[i..][1..] == lines[i + 1..];
      i := i + 1;
    }
  }

  /** The loop over the users' data file. */
  method ReadRequestRows(users: seq<string>, studentUUIDs: seq<string>) returns (requests: seq<RequestRow>)
    ensures requests == RequestRows(users, studentUUIDs)
  {
    requests := [];
    var i := 0;
    while i < |users|
      invariant 0 <= i <= |users|
      invariant requests == RequestRows(users[..i], studentUUIDs)
    {
      var line := users[i];
      RequestRowsStep(users, studentUUIDs, i);
      var parts := Split(line, ';');
      if |parts| >= 6 {
        var uuid := parts[0];
        if uuid in studentUUIDs {
          requests := requests + [RequestRow(parts[1], parts[2], parts[3], parts[4], parts[5], uuid)];
        } else {
          assert requests + [] == requests;
        }
      } else {
        assert requests + [] == requests;
      }
      i := i + 1;
    }
    assert users[..i] == users;
  }

  lemma RequestRowsStep(users: seq<string>, uuids: seq<string>, i: nat)
    requires i < |users|
    ensures RequestRows(users[..i + 1], uuids)
      == RequestRows(users[..i], uuids) + (if IsRequesterLine(users[i], uuids) then [RowOf(Split(users[i], ';'))] else [])
  {
    assert users[..i + 1][..i] == users[..i];
  }

  /** The loop over a coach line's fields from index 1. */
  method CollectLaterFields(parts: seq<string>) returns (uuids: seq<string>)
    ensures uuids == LaterFields(parts)
  {
    uuids := [];
    if |parts| == 0 {
      return;
    }
    var j := 1;
    while j < |parts|
      invariant 1 <= j <= |parts|
      invariant uuids == parts[1..j]
    {
      assert parts[1..j + 1] == parts[1..j] + [parts[j]];
      uuids := uuids + [parts[j]];
      j := j + 1;
    }
  }

  // ----- accepting and dismissing -----

  /** A students-file line after `moveStudentToCoach`. */
  function MovedLine(line: string, coachID: string, uuid: string): string
  {
    if IsCoachLine(line, coachID) && !Contains(line, ";" + uuid) then line + ";" + uuid else line
  }

  function MovedAll(lines: seq<string>, coachID: string, uuid: string): (r: seq<string>)
    ensures |r| == |lines|
    ensures forall k :: 0 <= k < |lines| ==> r[k] == MovedLine(lines[k], coachID, uuid)
  {
    if |lines| == 0 then []
    else MovedAll(lines[..|lines| - 1], coachID, uuid) + [MovedLine(lines[|lines| - 1], coachID, uuid)]
  }

  /** The students file after `moveStudentToCoach`. */
  function MovedStudents(lines: seq<string>, coachID: string, uuid: string): seq<string>
  {
    MovedAll(lines, coachID, uuid) + (if HasCoachLine(lines, coachID) then [] else [coachID + ";" + uuid])
  }

  /**
   * `moveStudentToCoach`: every line of the coach not yet holding `;uuid`
   * gets it appended; a coach without a line gets `coachID;uuid` at the end.
   */
  method MoveStudentToCoach(coachID: string, studentUUID: string, file: Option<seq<string>>)
    returns (fileLines: seq<string>)
    ensures fileLines == MovedStudents(LinesOf(file), coachID, studentUUID)
  {
    var lines := LinesOf(file);
    fileLines := [];
    var foundCoach := false;
    var i := 0;
    while i < |lines|
      invariant 0 <= i <= |lines|
      invariant fileLines == MovedAll(lines[..i], coachID, studentUUID)
      invariant foundCoach <==> HasCoachLine(lines[..i], coachID)
    {
      var line := lines[i];
      assert lines[..i + 1][..i] == lines[..i];
      if StartsWith(line, coachID + ";") {
        foundCoach := true;
        if !Contains(line, ";" + studentUUID) {
          line := line + ";" + studentUUID;
        }
      }
      fileLines := fileLines + [line];
      i := i + 1;
    }
    assert lines[..i] == lines;
    if !foundCoach {
      fileLines := fileLines + [coachID + ";" + studentUUID];
    } else {
      assert fileLines + [] == fileLines;
    }
  }

  /** The fields other than `u`, in their order. */
  function Without(fs: seq<string>, u: string): seq<string>
  {
    if |fs| == 0 then []
    else Without(fs[..|fs| - 1], u) + (if fs[|fs| - 1] == u then [] else [fs[|fs| - 1]])
  }

  /** A requests-file line after `removeRequest`: the coach's lines are rebuilt without the user's id. */
  function RemovedLine(line: string, coachID: string, uuid: string): string
  {
    if IsCoachLine(line, coachID) then coachID + SeparatedTail(Without(LaterFields(Split(line, ';')), uuid), ';') else line
  }

  function RemovedAll(lines: seq<string>, coachID: string, uuid: string): (r: seq<string>)
    ensures |r| == |lines|
    ensures forall k :: 0 <= k < |lines| ==> r[k] == RemovedLine(lines[k], coachID, uuid)
  {
    if |lines| == 0 then []
    else RemovedAll(lines[..|lines| - 1], coachID, uuid) + [RemovedLine(lines[|lines| - 1], coachID, uuid)]
  }

  /** `removeRequest`: the lines in order, each of the coach's rebuilt field by field without the user's id. */
  method RemoveRequest(coachID: string, studentUUID: string, file: Option<seq<string>>)
    returns (fileLines: seq<string>)
    ensures fileLines == RemovedAll(LinesOf(file), coachID, studentUUID)
  {
    var lines := LinesOf(file);
    fileLines := [];
    var i := 0;
    while i < |lines|
      invariant 0 <= i <= |lines|
      invariant fileLines == RemovedAll(lines[..i], coachID, studentUUID)
    {
      var line := lines[i];
      assert lines[..i + 1][..i] == lines[..i];
      if StartsWith(line, coachID + ";") {
        line := RebuildWithout(coachID, Split(line, ';'), studentUUID);
      }
      fileLines := fileLines + [line];
      i := i + 1;
    }
    assert lines[..i] == lines;
  }

  /** The `StringBuilder` loop of `removeRequest`. */
  method RebuildWithout(coachID: string, parts: seq<string>, studentUUID: string) returns (newLine: string)
    ensures newLine == coachID + SeparatedTail(Without(LaterFields(parts), studentUUID), ';')
  {
    newLine := coachID;
    if |parts| == 0 {
      return;
    }
    var i := 1;
    while i < |parts|
      invariant 1 <= i <= |parts|
      invariant newLine == coachID + SeparatedTail(Without(parts[1..i], studentUUID), ';')
    {
      var field := parts[i];
      RebuildStep(coachID, parts, i, studentUUID, newLine);
      if field != studentUUID {
        newLine := newLine + ";" + field;
      }
      i := i + 1;
    }
    assert parts[1..i] == parts[1..];
  }

  /** One field of the `StringBuilder` loop: appended with its separator unless it is the removed id. */
  lemma RebuildStep(coachID: string, parts: seq<string>, i: nat, u: string, newLine: string)
    requires 1 <= i < |parts|
    requires newLine == coachID + SeparatedTail(Without(parts[1..i], u), ';')
    ensures (if parts[i] != u then newLine + ";" + parts[i] else newLine)
      == coachID + SeparatedTail(Without(parts[1..i + 1], u), ';')
  {
    var field := parts[i];
    var kept := Without(parts[1..i], u);
    WithoutStep(parts, i, u);
    if field != u {
      SeparatedTailAppend(kept, field, ';');
      AppendAssoc(coachID, SeparatedTail(kept, ';'), [';'] + field);
    } else {
      assert kept + [] == kept;
    }
  }

  lemma WithoutStep(parts: seq<string>, i: nat, u: string)
    requires 1 <= i < |parts|
    ensures Without(parts[1..i + 1], u) == Without(parts[1..i], u) + (if parts[i] == u then [] else [parts[i]])
  {
    assert parts[1..i + 1][..i - 1] == parts[1..i];
  }

  /** The screen's state: the coach and the rows of the requests table. */
  class SessionRequestsScreen {
    var coachID: string
    var rows: seq<RequestRow>

    constructor (loggedInCoachID: string, requestsFile: Option<seq<string>>, usersFile: Option<seq<string>>)
      ensures coachID == loggedInCoachID
      ensures rows == RequestRows(LinesOf(usersFile), CoachLineUuids(LinesOf(requestsFile), loggedInCoachID))
    {
      var loaded := GetCoachRequests(loggedInCoachID, requestsFile, usersFile);
      coachID := loggedInCoachID;
      rows := loaded;
    }

    /** `finishEditing`: the row of the handled request leaves the table. */
    method FinishEditing(editingRow: nat)
      requires editingRow < |rows|
      modifies this
      ensures coachID == old(coachID)
      ensures rows == old(rows[..editingRow] + rows[editingRow + 1..])
    {
      rows := rows[..editingRow] + rows[editingRow + 1..];
    }

    /** Accepting the request of a row: the student joins the coach, then the request is removed. */
    method HandleAcceptRequest(editingRow: nat, studentsFile: Option<seq<string>>, requestsFile: Option<seq<string>>)
      returns (students: seq<string>, requests: seq<string>)
      requires editingRow < |rows|
      modifies this
      ensures coachID == old(coachID)
      ensures var studentUUID := old(rows[editingRow].uuid);
        && students == MovedStudents(LinesOf(studentsFile), coachID, studentUUID)
        && requests == RemovedAll(LinesOf(requestsFile), coachID, studentUUID)
      ensures rows == old(rows[..editingRow] + rows[editingRow + 1..])
    {
      var studentUUID := rows[editingRow].uuid;
      students := MoveStudentToCoach(coachID, studentUUID, studentsFile);
      requests := RemoveRequest(coachID, studentUUID, requestsFile);
      FinishEditing(editingRow);
    }

    /** Dismissing the request of a row: only the request is removed. */
    method HandleDismissRequest(editingRow: nat, requestsFile: Option<seq<string>>)
      returns (requests: seq<string>)
      requires editingRow < |rows|
      modifies this
      ensures coachID == old(coachID)
      ensures requests == RemovedAll(LinesOf(requestsFile), coachID, old(rows[editingRow].uuid))
      ensures rows == old(rows[..editingRow] + rows[editingRow + 1..])
    {
      var studentUUID := rows[editingRow].uuid;
      requests := RemoveRequest(coachID, studentUUID, requestsFile);
      FinishEditing(editingRow);
    }
  }

  // ----- properties of reading the requests -----

  /** Every row comes from a requester's line, with the id in the hidden column. */
  lemma {:induction false} RowsOfRequesters(users: seq<string>, uuids: seq<string>, row: RequestRow)
    requires row in RequestRows(users, uuids)
    ensures row.uuid in uuids
    ensures exists k :: 0 <= k < |users| && IsRequesterLine(users[k], uuids) && row == RowOf(Split(users[k], ';'))
  {
    var front := users[..|users| - 1];
    if row in RequestRows(front, uuids) {
      RowsOfRequesters(front, uuids, row);
      var k :| 0 <= k < |front| && IsRequesterLine(front[k], uuids) && row == RowOf(Split(front[k], ';'));
      assert users[k] == front[k];
    } else {
      assert IsRequesterLine(users[|users| - 1], uuids);
    }
  }

  /** Every requester's line gives a row. */
  lemma {:induction false} RowOfEveryRequester(users: seq<string>, uuids: seq<string>, k: nat)
    requires k < |users| && IsRequesterLine(users[k], uuids)
    ensures RowOf(Split(users[k], ';')) in RequestRows(users, uuids)
  {
    if k < |users| - 1 {
      RowOfEveryRequester(users[..|users| - 1], uuids, k);
    }
  }

  /** A first line of the coach that ends in `;uuid` lists the user. */
  lemma AppendedUuidListed(lines: seq<string>, coachID: string, uuid: string, k: nat, line: string)
    requires ';' !in uuid && uuid != ""
    requires k < |lines| && lines[k] == line + [';'] + uuid && IsCoachLine(lines[k], coachID)
    requires forall j :: 0 <= j < k ==> !IsCoachLine(lines[j], coachID)
    ensures uuid in CoachLineUuids(lines, coachID)
  {
    SplitAppendedField(line, uuid, ';');
    CoachLineUuidsOfFirst(lines, coachID, k);
    var fs := Split(lines[k], ';');
    assert fs[|fs| - 1] == uuid;
  }

  /** The coach's first line decides the requesters. */
  lemma {:induction false} CoachLineUuidsOfFirst(lines: seq<string>, coachID: string, k: nat)
    requires k < |lines| && IsCoachLine(lines[k], coachID)
    requires forall j :: 0 <= j < k ==> !IsCoachLine(lines[j], coachID)
    ensures CoachLineUuids(lines, coachID) == LaterFields(Split(lines[k], ';'))
  {
    if k > 0 {
      assert !IsCoachLine(lines[0], coachID);
      assert forall j :: 0 <= j < k - 1 ==> lines[1..][j] == lines[j + 1];
      CoachLineUuidsOfFirst(lines[1..], coachID, k - 1);
    }
  }

  /** The requesters are the later fields of some line of the coach, or nobody. */
  lemma {:induction false} CoachLineUuidsFrom(lines: seq<string>, coachID: string) returns (k: nat)
    ensures CoachLineUuids(lines, coachID) == []
      || (k < |lines| && IsCoachLine(lines[k], coachID) && CoachLineUuids(lines, coachID) == LaterFields(Split(lines[k], ';')))
  {
    if |lines| == 0 || IsCoachLine(lines[0], coachID) {
      k := 0;
    } else {
      var j := CoachLineUuidsFrom(lines[1..], coachID);
      k := j + 1;
    }
  }

  /** The first line of the coach, when there is one. */
  lemma {:induction false} FirstCoachLine(lines: seq<string>, coachID: string) returns (k: nat)
    requires HasCoachLine(lines, coachID)
    ensures k < |lines| && IsCoachLine(lines[k], coachID)
    ensures forall j :: 0 <= j < k ==> !IsCoachLine(lines[j], coachID)
  {
    var front := lines[..|lines| - 1];
    if HasCoachLine(front, coachID) {
      k := FirstCoachLine(front, coachID);
      assert forall j :: 0 <= j <= k ==> lines[j] == front[j];
    } else {
      k := |lines| - 1;
      forall j | 0 <= j < k
        ensures !IsCoachLine(lines[j], coachID)
      {
        if IsCoachLine(lines[j], coachID) {
          assert front[j] == lines[j];
          HasCoachLineOfPrefix(front, coachID, j + 1);
        }
      }
    }
  }

  /**
   * A request the user sent reaches the coach: the request screen of the
   * coach lists the user's id, and a row for the user's data line.
   */
  lemma RequestReachesCoach(students: seq<string>, requests: seq<string>, coachID: string, uuid: string)
    requires ';' !in uuid && uuid != ""
    requires RequestOutcomeOf(students, requests, coachID, uuid).RequestSent?
    ensures uuid in CoachLineUuids(RequestOutcomeOf(students, requests, coachID, uuid).requests, coachID)
  {
    var r := RequestOutcomeOf(students, requests, coachID, uuid).requests;
    RequestSentShape(students, requests, coachID, uuid);
    var k: nat;
    var line: string;
    if HasCoachLine(requests, coachID) {
      k := FirstCoachLine(requests, coachID);
      line := requests[k];
      CoachLineExtended(line, coachID, ";" + uuid);
      assert r[k] == line + ";" + uuid == line + (";" + uuid);
    } else {
      k := |requests|;
      line := coachID;
      assert (coachID + ";")[..|coachID + ";"|] == coachID + ";";
      forall j | 0 <= j < k
        ensures !IsCoachLine(requests[j], coachID)
      {
        if IsCoachLine(requests[j], coachID) {
          HasCoachLineOfPrefix(requests, coachID, j + 1);
        }
      }
    }
    assert r[k] == line + [';'] + uuid;
    AppendedUuidListed(r, coachID, uuid, k, line);
  }

  /** The user's data line gives a row on the coach's screen once the request was sent. */
  lemma RequestShownToCoach(students: seq<string>, requests: seq<string>, users: seq<string>,
                            coachID: string, uuid: string, k: nat)
    requires ';' !in uuid && uuid != ""
    requires RequestOutcomeOf(students, requests, coachID, uuid).RequestSent?
    requires k < |users| && |Split(users[k], ';')| >= 6 && Split(users[k], ';')[0] == uuid
    ensures var r := RequestOutcomeOf(students, requests, coachID, uuid).requests;
      RowOf(Split(users[k], ';')) in RequestRows(users, CoachLineUuids(r, coachID))
  {
    var r := RequestOutcomeOf(students, requests, coachID, uuid).requests;
    RequestReachesCoach(students, requests, coachID, uuid);
    RowOfEveryRequester(users, CoachLineUuids(r, coachID), k);
  }

  // ----- properties of accepting and dismissing -----

  /** A rewritten line of the students file is the coach's exactly when the old one was. */
  lemma MovedLineOfCoach(line: string, coachID: string, uuid: string)
    ensures IsCoachLine(MovedLine(line, coachID, uuid), coachID) <==> IsCoachLine(line, coachID)
    ensures IsCoachLine(line, coachID) ==> Contains(MovedLine(line, coachID, uuid), ";" + uuid)
  {
    if IsCoachLine(line, coachID) && !Contains(line, ";" + uuid) {
      CoachLineExtended(line, coachID, ";" + uuid);
      assert line + ";" + uuid == line + (";" + uuid);
      ContainsSuffix(line, ";" + uuid);
    }
  }

  /** After `moveStudentToCoach` the coach has a line, and every line of the coach holds `;uuid`. */
  lemma MovedEnrols(lines: seq<string>, coachID: string, uuid: string)
    ensures var r := MovedStudents(lines, coachID, uuid);
      && HasCoachLine(r, coachID)
      && (forall k :: 0 <= k < |r| && IsCoachLine(r[k], coachID) ==> Contains(r[k], ";" + uuid))
  {
    var r := MovedStudents(lines, coachID, uuid);
    var all := MovedAll(lines, coachID, uuid);
    forall k | 0 <= k < |r| && IsCoachLine(r[k], coachID)
      ensures Contains(r[k], ";" + uuid)
    {
      if k < |lines| {
        MovedLineOfCoach(lines[k], coachID, uuid);
      } else {
        assert r[k] == coachID + (";" + uuid);
        ContainsSuffix(coachID, ";" + uuid);
      }
    }
    if HasCoachLine(lines, coachID) {
      var k := CoachLineAt(lines, coachID);
      MovedLineOfCoach(lines[k], coachID, uuid);
      assert r == all + [];
      HasCoachLineOfPrefix(r, coachID, k + 1);
    } else {
      assert IsCoachLine(coachID + ";" + uuid, coachID) by {
        assert (coachID + ";" + uuid)[..|coachID + ";"|] == coachID + ";";
      }
      HasCoachLineOfPrefix(r, coachID, |r|);
    }
  }

  /** Moving the same student twice writes what moving once wrote. */
  lemma MoveIdempotent(lines: seq<string>, coachID: string, uuid: string)
    ensures var once := MovedStudents(lines, coachID, uuid);
      MovedStudents(once, coachID, uuid) == once
  {
    var once := MovedStudents(lines, coachID, uuid);
    MovedEnrols(lines, coachID, uuid);
    var again := MovedAll(once, coachID, uuid);
    forall k | 0 <= k < |once|
      ensures again[k] == once[k]
    {
      if IsCoachLine(once[k], coachID) {
        assert Contains(once[k], ";" + uuid);
      }
    }
    assert again == once;
    assert MovedStudents(once, coachID, uuid) == again + [];
  }

  /** Moving a student changes only the coach's lines, and adds at most `coachID;uuid` at the end. */
  lemma MovedStudentsShape(lines: seq<string>, coachID: string, uuid: string)
    ensures var r := MovedStudents(lines, coachID, uuid);
      && |r| == |lines| + (if HasCoachLine(lines, coachID) then 0 else 1)
      && (forall k :: 0 <= k < |lines| && !IsCoachLine(lines[k], coachID) ==> r[k] == lines[k])
      && (forall k :: 0 <= k < |lines| && IsCoachLine(lines[k], coachID) ==>
            r[k] == lines[k] || r[k] == lines[k] + ";" + uuid)
      && (!HasCoachLine(lines, coachID) ==> r[|lines|] == coachID + ";" + uuid)
  {
  }

  /** The fields kept are the ones other than `u`. */
  lemma {:induction false} WithoutMembers(fs: seq<string>, u: string, x: string)
    ensures x in Without(fs, u) <==> x in fs && x != u
  {
    if |fs| > 0 {
      var front := fs[..|fs| - 1];
      WithoutMembers(front, u, x);
      assert fs == front + [fs[|fs| - 1]];
    }
  }

  /** Removing from two pieces of fields keeps their order. */
  lemma {:induction false} WithoutAppend(a: seq<string>, b: seq<string>, u: string)
    ensures Without(a + b, u) == Without(a, u) + Without(b, u)
  {
    if |b| == 0 {
      assert a + b == a;
    } else {
      var front := b[..|b| - 1];
      assert (a + b)[..|a + b| - 1] == a + front;
      WithoutAppend(a, front, u);
    }
  }

  /** Fields without `u` are kept as they are. */
  lemma {:induction false} WithoutAbsent(fs: seq<string>, u: string)
    requires u !in fs
    ensures Without(fs, u) == fs
  {
    if |fs| > 0 {
      WithoutAbsent(fs[..|fs| - 1], u);
      assert fs[..|fs| - 1] + [fs[|fs| - 1]] == fs;
    }
  }

  /** A rebuilt line of the coach is the coach's id joined with the fields kept. */
  lemma RemovedLineFields(line: string, coachID: string, uuid: string)
    requires ';' !in coachID && IsCoachLine(line, coachID)
    ensures var kept := Without(LaterFields(Split(line, ';')), uuid);
      && RemovedLine(line, coachID, uuid) == Join([coachID] + kept, ';')
      && uuid !in LaterFields(Split(RemovedLine(line, coachID, uuid), ';'))
  {
    var kept := Without(LaterFields(Split(line, ';')), uuid);
    var fs := [coachID] + kept;
    JoinAsHeadAndTail(fs, ';');
    assert fs[1..] == kept;
    forall i | 0 <= i < |fs|
      ensures ';' !in fs[i]
    {
      if i > 0 {
        WithoutMembers(LaterFields(Split(line, ';')), uuid, fs[i]);
      }
    }
    FieldsOfJoin(fs, ';');
    var s := Join(fs, ';');
    SplitIsPrefixOfFields(s, ';');
    var r := Split(s, ';');
    forall i | 1 <= i < |r|
      ensures r[i] != uuid
    {
      assert r[i] == fs[i] && fs[i] in kept;
      WithoutMembers(LaterFields(Split(line, ';')), uuid, fs[i]);
    }
  }

  /** After `removeRequest` no line of the coach has the user's id as a later field. */
  lemma RemovedClears(lines: seq<string>, coachID: string, uuid: string)
    requires ';' !in coachID
    ensures var r := RemovedAll(lines, coachID, uuid);
      forall k :: 0 <= k < |r| && IsCoachLine(r[k], coachID) ==> uuid !in LaterFields(Split(r[k], ';'))
  {
    var r := RemovedAll(lines, coachID, uuid);
    forall k | 0 <= k < |r| && IsCoachLine(r[k], coachID)
      ensures uuid !in LaterFields(Split(r[k], ';'))
    {
      if IsCoachLine(lines[k], coachID) {
        RemovedLineFields(lines[k], coachID, uuid);
      }
    }
  }

  /** A dismissed or accepted request leaves the coach's list of requesters. */
  lemma RemovedNotRequested(lines: seq<string>, coachID: string, uuid: string)
    requires ';' !in coachID
    ensures uuid !in CoachLineUuids(RemovedAll(lines, coachID, uuid), coachID)
  {
    var r := RemovedAll(lines, coachID, uuid);
    RemovedClears(lines, coachID, uuid);
    var k := CoachLineUuidsFrom(r, coachID);
  }

  /**
   * Accepting a request: the students file lists the user for the coach,
   * the requests file no longer does, and a new request of the user is
   * turned away as coming from a student.
   */
  lemma AcceptMakesStudent(students: seq<string>, requests: seq<string>, otherRequests: seq<string>,
                           coachID: string, uuid: string)
    requires ';' !in coachID
    ensures var s := MovedStudents(students, coachID, uuid);
      && (exists k :: 0 <= k < |s| && IsCoachLine(s[k], coachID) && Contains(s[k], ";" + uuid))
      && uuid !in CoachLineUuids(RemovedAll(requests, coachID, uuid), coachID)
      && RequestOutcomeOf(s, otherRequests, coachID, uuid) == AlreadyStudent
  {
    var s := MovedStudents(students, coachID, uuid);
    MovedEnrols(students, coachID, uuid);
    var k := CoachLineAt(s, coachID);
    ContainsOfLonger(s[k], ";", uuid);
    MentionsAt(s, coachID, uuid, k);
    RemovedNotRequested(requests, coachID, uuid);
  }
}
