// The coaches screen's "request a session" rules over the two coach files,
// the students file and the requests file, both made of lines
// `coachID;uuid;uuid;...`.

module OurCoaches {
  import opened JavaText
  import opened JavaNumbers

  /** The lines of a file; a missing file reads as no lines. */
  function LinesOf(file: Option<seq<string>>): seq<string>
  {
    if file.None? then [] else file.value
  }

  /** A line of the coach: it starts with the coach's id and `;`. */
  predicate IsCoachLine(line: string, coachID: string)
  {
    StartsWith(line, coachID + ";")
  }

  /** Some line of the coach holds the user's id anywhere in its text. */
  predicate Mentions(lines: seq<string>, coachID: string, uuid: string)
  {
    |lines| > 0 &&
    (Mentions(lines[..|lines| - 1], coachID, uuid) ||
     (IsCoachLine(lines[|lines| - 1], coachID) && Contains(lines[|lines| - 1], uuid)))
  }

  /** Some line belongs to the coach. */
  predicate HasCoachLine(lines: seq<string>, coachID: string)
  {
    |lines| > 0 && (HasCoachLine(lines[..|lines| - 1], coachID) || IsCoachLine(lines[|lines| - 1], coachID))
  }

  /** A line of the requests file as the request loop leaves it. */
  function RequestedLine(line: string, coachID: string, uuid: string): string
  {
    if IsCoachLine(line, coachID) && !Contains(line, uuid) then line + ";" + uuid else line
  }

  function RequestedAll(lines: seq<string>, coachID: string, uuid: string): (r: seq<string>)
    ensures |r| == |lines|
    ensures forall k :: 0 <= k < |lines| ==> r[k] == RequestedLine(lines[k], coachID, uuid)
  {
    if |lines| == 0 then []
    else RequestedAll(lines[..|lines| - 1], coachID, uuid) + [RequestedLine(lines[|lines| - 1], coachID, uuid)]
  }

  /** What a click on "request" does; only a sent request writes the requests file. */
  datatype RequestOutcome =
    | AlreadyStudent
    | AlreadyRequested
    | RequestSent(requests: seq<string>)

  /**
   * The rules of a request: a user the students file lists for the coach is
   * turned away first, then a user the requests file lists; otherwise every
   * line of the coach gets the user's id appended, or a line `coachID;uuid`
   * is added when the coach has none.
   */
  function RequestOutcomeOf(students: seq<string>, requests: seq<string>, coachID: string, uuid: string): RequestOutcome
  {
    if Mentions(students, coachID, uuid) then AlreadyStudent
    else if Mentions(requests, coachID, uuid) then AlreadyRequested
    else RequestSent(RequestedAll(requests, coachID, uuid)
                     + (if HasCoachLine(requests, coachID) then [] else [coachID + ";" + uuid]))
  }

  /**
   * `handleRequestClick`: the students file is searched until a line of the
   * coach mentions the user; the requests file is read line by line,
   * appending the user to the coach's lines; then the coach's line is looked
   * for. A missing file reads as empty.
   */
  method HandleRequestClick(coachID: string, currentUserUUID: string,
                            studentsFile: Option<seq<string>>, requestsFile: Option<seq<string>>)
    returns (outcome: RequestOutcome)
    ensures outcome == RequestOutcomeOf(LinesOf(studentsFile), LinesOf(requestsFile), coachID, currentUserUUID)
  {
    var userIsAlreadyStudent := FindMention(LinesOf(studentsFile), coachID, currentUserUUID);
    if userIsAlreadyStudent {
      return AlreadyStudent;
    }
    var requests := LinesOf(requestsFile);
    var lines, userAlreadyRequested := ReadRequests(requests, coachID, currentUserUUID);
    if userAlreadyRequested {
      return AlreadyRequested;
    }
    RequestedKeepsCoachLines(requests, coachID, currentUserUUID);
    var coachLineFound := FindCoachLine(lines, coachID);
    if !coachLineFound {
      lines := lines + [coachID + ";" + currentUserUUID];
    } else {
      assert lines + [] == lines;
    }
    return RequestSent(lines);
  }

  /** The search of the students file: it stops at the first line of the coach that holds the user's id. */
  method FindMention(students: seq<string>, coachID: string, uuid: string) returns (found: bool)
    ensures found == Mentions(students, coachID, uuid)
  {
    var i := 0;
    while i < |students|
      invariant 0 <= i <= |students|
      invariant !Mentions(students[..i], coachID, uuid)
    {
      var line := students[i];
      assert students[..i + 1][..i] == students[..i];
      if StartsWith(line, coachID + ";") && Contains(line, uuid) {
        MentionsOfPrefix(students, coachID, uuid, i + 1);
        return true;
      }
      i := i + 1;
    }
    assert students[..i] == students;
    return false;
  }

  /** The loop over the requests file: the coach's lines get the user appended unless they hold it already. */
  method ReadRequests(requests: seq<string>, coachID: string, uuid: string)
    returns (lines: seq<string>, userAlreadyRequested: bool)
    ensures lines == RequestedAll(requests, coachID, uuid)
    ensures userAlreadyRequested == Mentions(requests, coachID, uuid)
  {
    lines := [];
    userAlreadyRequested := false;
    var i := 0;
    while i < |requests|
      invariant 0 <= i <= |requests|
      invariant lines == RequestedAll(requests[..i], coachID, uuid)
      invariant userAlreadyRequested <==> Mentions(requests[..i], coachID, uuid)
    {
      var line := requests[i];
      assert requests[..i + 1][..i] == requests[..i];
      if StartsWith(line, coachID + ";") {
        if Contains(line, uuid) {
          userAlreadyRequested := true;
        } else {
          line := line + ";" + uuid;
        }
      }
      lines := lines + [line];
      i := i + 1;
    }
    assert requests[..i] == requests;
  }

  /** The search for a line of the coach in the rewritten requests. */
  method FindCoachLine(lines: seq<string>, coachID: string) returns (found: bool)
    ensures found == HasCoachLine(lines, coachID)
  {
    var i := 0;
    while i < |lines|
      invariant 0 <= i <= |lines|
      invariant !HasCoachLine(lines[..i], coachID)
    {
      assert lines[..i + 1][..i] == lines[..i];
      if StartsWith(lines[i], coachID + ";") {
        HasCoachLineOfPrefix(lines, coachID, i + 1);
        return true;
      }
      i := i + 1;
    }
    assert lines[..i] == lines;
    return false;
  }

  // ----- properties of the request rules -----

  lemma {:induction false} MentionsOfPrefix(lines: seq<string>, coachID: string, uuid: string, j: nat)
    requires j <= |lines| && Mentions(lines[..j], coachID, uuid)
    ensures Mentions(lines, coachID, uuid)
    decreases |lines| - j
  {
    if j < |lines| {
      assert lines[..j + 1][..j] == lines[..j];
      MentionsOfPrefix(lines, coachID, uuid, j + 1);
    } else {
      assert lines[..j] == lines;
    }
  }

  lemma {:induction false} HasCoachLineOfPrefix(lines: seq<string>, coachID: string, j: nat)
    requires 0 < j <= |lines| && IsCoachLine(lines[j - 1], coachID)
    ensures HasCoachLine(lines, coachID)
    decreases |lines| - j
  {
    if j < |lines| {
      HasCoachLineOfPrefix(lines[..|lines| - 1], coachID, j);
    }
  }

  /** A line of the coach that holds the user's id makes the user mentioned. */
  lemma {:induction false} MentionsAt(lines: seq<string>, coachID: string, uuid: string, k: nat)
    requires k < |lines| && IsCoachLine(lines[k], coachID) && Contains(lines[k], uuid)
    ensures Mentions(lines, coachID, uuid)
  {
    if k < |lines| - 1 {
      MentionsAt(lines[..|lines| - 1], coachID, uuid, k);
    }
  }

  /** A coach with a line has a line at some position. */
  lemma {:induction false} CoachLineAt(lines: seq<string>, coachID: string) returns (k: nat)
    requires HasCoachLine(lines, coachID)
    ensures k < |lines| && IsCoachLine(lines[k], coachID)
  {
    if IsCoachLine(lines[|lines| - 1], coachID) {
      k := |lines| - 1;
    } else {
      k := CoachLineAt(lines[..|lines| - 1], coachID);
    }
  }

  /** Appending to a line of the coach keeps it a line of the coach. */
  lemma CoachLineExtended(line: string, coachID: string, tail: string)
    ensures IsCoachLine(line, coachID) ==> IsCoachLine(line + tail, coachID)
  {
    if IsCoachLine(line, coachID) {
      assert (line + tail)[..|coachID + ";"|] == line[..|coachID + ";"|];
    }
  }

  /** The request loop keeps the coach's lines the coach's, and makes no new ones. */
  lemma {:induction false} RequestedKeepsCoachLines(lines: seq<string>, coachID: string, uuid: string)
    ensures HasCoachLine(RequestedAll(lines, coachID, uuid), coachID) <==> HasCoachLine(lines, coachID)
  {
    if |lines| > 0 {
      var last := lines[|lines| - 1];
      RequestedKeepsCoachLines(lines[..|lines| - 1], coachID, uuid);
      CoachLineExtended(last, coachID, ";" + uuid);
      assert last + ";" + uuid == last + (";" + uuid);
      var r := RequestedAll(lines, coachID, uuid);
      assert r[..|r| - 1] == RequestedAll(lines[..|lines| - 1], coachID, uuid);
    }
  }

  /**
   * A sent request changes nothing but the coach's lines, each of which gets
   * `;uuid` appended, and adds at most the line `coachID;uuid` at the end.
   */
  lemma RequestSentShape(students: seq<string>, requests: seq<string>, coachID: string, uuid: string)
    requires RequestOutcomeOf(students, requests, coachID, uuid).RequestSent?
    ensures var r := RequestOutcomeOf(students, requests, coachID, uuid).requests;
      && |r| == |requests| + (if HasCoachLine(requests, coachID) then 0 else 1)
      && (forall k :: 0 <= k < |requests| ==>
            r[k] == (if IsCoachLine(requests[k], coachID) then requests[k] + ";" + uuid else requests[k]))
      && (!HasCoachLine(requests, coachID) ==> r[|requests|] == coachID + ";" + uuid)
  {
    forall k | 0 <= k < |requests| && IsCoachLine(requests[k], coachID)
      ensures !Contains(requests[k], uuid)
    {
      if Contains(requests[k], uuid) {
        MentionsAt(requests, coachID, uuid, k);
      }
    }
  }

  /**
   * Asking the same coach twice: after a request was sent, the same request
   * on the written file is turned away as already requested.
   */
  lemma SecondRequestRejected(students: seq<string>, requests: seq<string>, coachID: string, uuid: string)
    requires RequestOutcomeOf(students, requests, coachID, uuid).RequestSent?
    ensures var r := RequestOutcomeOf(students, requests, coachID, uuid).requests;
      RequestOutcomeOf(students, r, coachID, uuid) == AlreadyRequested
  {
    assert !Mentions(students, coachID, uuid);
    assert !Mentions(requests, coachID, uuid);
    if HasCoachLine(requests, coachID) {
      SentMentionsExtended(requests, coachID, uuid);
      assert RequestedAll(requests, coachID, uuid) + [] == RequestedAll(requests, coachID, uuid);
    } else {
      SentMentionsAdded(requests, coachID, uuid);
    }
  }

  /** A coach with lines: the request leaves the user's id on one of them. */
  lemma SentMentionsExtended(requests: seq<string>, coachID: string, uuid: string)
    requires !Mentions(requests, coachID, uuid) && HasCoachLine(requests, coachID)
    ensures Mentions(RequestedAll(requests, coachID, uuid), coachID, uuid)
  {
    var k := CoachLineAt(requests, coachID);
    var line := requests[k];
    if Contains(line, uuid) {
      MentionsAt(requests, coachID, uuid, k);
    }
    var r := RequestedAll(requests, coachID, uuid);
    assert r[k] == line + ";" + uuid;
    CoachLineExtended(line, coachID, ";" + uuid);
    assert line + ";" + uuid == line + (";" + uuid);
    ContainsSuffix(line + ";", uuid);
    MentionsAt(r, coachID, uuid, k);
  }

  /** A coach without lines: the added line `coachID;uuid` holds the user's id. */
  lemma SentMentionsAdded(requests: seq<string>, coachID: string, uuid: string)
    ensures Mentions(RequestedAll(requests, coachID, uuid) + [coachID + ";" + uuid], coachID, uuid)
  {
    var r := RequestedAll(requests, coachID, uuid) + [coachID + ";" + uuid];
    CoachLineExtended(coachID + ";", coachID, uuid);
    assert (coachID + ";")[..|coachID + ";"|] == coachID + ";";
    ContainsSuffix(coachID + ";", uuid);
    MentionsAt(r, coachID, uuid, |r| - 1);
  }
}
