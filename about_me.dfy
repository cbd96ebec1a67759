// The profile screen: reading the user's record from usersData.txt,
// rewriting it after an edit, the BMI gauge's category, and adding the
// current weight to weightsData.txt.

module AboutMe {
  import opened JavaText
  import opened JavaNumbers

  /** The eight fields of a usersData.txt record after the id. */
  datatype Profile = Profile(
    name: string,
    weight: real,
    height: real,
    age: Int32,
    gender: string,
    accountCreationDate: string,
    currentWeightDate: string)

  /** The fields of the record `uuid;name;weight;height;age;gender;created;weightDate`. */
  function RecordFields(nf: Numerals, uuid: string, p: Profile): seq<string>
  {
    [uuid, p.name, nf.show(p.weight), nf.show(p.height), IntToString(p.age), p.gender,
     p.accountCreationDate, p.currentWeightDate]
  }

  /** The record `updateUserDataInFile` writes: the fields joined by `;`. */
  function UserRecord(nf: Numerals, uuid: string, p: Profile): string
  {
    Join(RecordFields(nf, uuid, p), ';')
  }

  /** The text fields of a profile hold no `;` and the last one is not empty, so the record splits back. */
  predicate StorableProfile(uuid: string, p: Profile)
  {
    && ';' !in uuid && ';' !in p.name && ';' !in p.gender
    && ';' !in p.accountCreationDate && ';' !in p.currentWeightDate && p.currentWeightDate != ""
  }

  /** A line the profile routines act on: not empty, at least eight fields, the first one the id. */
  predicate IsProfileLine(line: string, uuid: string)
  {
    line != "" && |Split(line, ';')| >= 8 && Split(line, ';')[0] == uuid
  }

  /** What `loadUserDataFromFile` reads from a line: unreadable numbers become 0. */
  function ProfileOf(nf: Numerals, parts: seq<string>): Profile
    requires |parts| >= 8
  {
    var weight := ParseDouble(nf, parts[2]);
    var height := ParseDouble(nf, parts[3]);
    var age := ParseInt(parts[4]);
    Profile(parts[1],
            if weight.Some? then weight.value else 0.0,
            if height.Some? then height.value else 0.0,
            if age.Some? then age.value else 0,
            parts[5], parts[6], parts[7])
  }

  /** Some line of the user is in the file. */
  predicate HasProfileLine(lines: seq<string>, uuid: string)
  {
    |lines| > 0 && (HasProfileLine(lines[..|lines| - 1], uuid) || IsProfileLine(lines[|lines| - 1], uuid))
  }

  /** The profile on the first line of the user. */
  function FindProfile(nf: Numerals, uuid: string, lines: seq<string>): Option<Profile>
  {
    if |lines| == 0 then None
    else
      var found := FindProfile(nf, uuid, lines[..|lines| - 1]);
      if found.Some? then found
      else if IsProfileLine(lines[|lines| - 1], uuid) then Some(ProfileOf(nf, Split(lines[|lines| - 1], ';')))
      else None
  }

  /** A profile is found exactly when the file has a line of the user. */
  lemma {:induction false} FindProfileFound(nf: Numerals, uuid: string, lines: seq<string>)
    ensures FindProfile(nf, uuid, lines).Some? <==> HasProfileLine(lines, uuid)
  {
    if |lines| > 0 {
      FindProfileFound(nf, uuid, lines[..|lines| - 1]);
    }
  }

  /** Lines after the first line of the user do not change the profile. */
  lemma {:induction false} FindProfileOfPrefix(nf: Numerals, uuid: string, lines: seq<string>, j: nat)
    requires j <= |lines| && FindProfile(nf, uuid, lines[..j]).Some?
    ensures FindProfile(nf, uuid, lines) == FindProfile(nf, uuid, lines[..j])
    decreases |lines|
  {
    if j < |lines| {
      assert lines[..|lines| - 1][..j] == lines[..j];
      FindProfileOfPrefix(nf, uuid, lines[..|lines| - 1], j);
    } else {
      assert lines[..j] == lines;
    }
  }

  /** The profile is the one on the line of the user that no other line of the user precedes. */
  lemma FindProfileOfFirst(nf: Numerals, uuid: string, lines: seq<string>, k: nat)
    requires k < |lines| && IsProfileLine(lines[k], uuid) && !HasProfileLine(lines[..k], uuid)
    ensures FindProfile(nf, uuid, lines) == Some(ProfileOf(nf, Split(lines[k], ';')))
  {
    FindProfileFound(nf, uuid, lines[..k]);
    assert lines[..k + 1][..k] == lines[..k];
    FindProfileOfPrefix(nf, uuid, lines, k + 1);
  }

  /** A stored record is a line of the user, and reading it gives the profile back. */
  lemma UserRecordReadsBack(nf: Numerals, uuid: string, p: Profile)
    requires RoundTrips(nf, p.weight) && RoundTrips(nf, p.height) && StorableProfile(uuid, p)
    ensures Split(UserRecord(nf, uuid, p), ';') == RecordFields(nf, uuid, p)
    ensures IsProfileLine(UserRecord(nf, uuid, p), uuid)
    ensures ProfileOf(nf, RecordFields(nf, uuid, p)) == p
  {
    var fs := RecordFields(nf, uuid, p);
    ShowFreeOfSeparators(nf, p.weight);
    ShowFreeOfSeparators(nf, p.height);
    IntTextFreeOfSeparators(p.age);
    SplitOfJoin(fs, ';');
    ParseDoubleOfShow(nf, p.weight);
    ParseDoubleOfShow(nf, p.height);
    ParseIntOfIntToString(p.age);
  }

  // ----- rewriting the record -----

  /** One line after `updateUserDataInFile`: a line of the user becomes the new record. */
  function UpdatedLine(line: string, uuid: string, record: string): string
  {
    if IsProfileLine(line, uuid) then record else line
  }

  function UpdatedUserData(lines: seq<string>, uuid: string, record: string): (r: seq<string>)
    ensures |r| == |lines|
    ensures forall k :: 0 <= k < |lines| ==> r[k] == UpdatedLine(lines[k], uuid, record)
  {
    if |lines| == 0 then []
    else
      var front := UpdatedUserData(lines[..|lines| - 1], uuid, record);
      front + [UpdatedLine(lines[|lines| - 1], uuid, record)]
  }

  /** The body of the loop: the line to write, and whether it was the user's. */
  method UpdateUserLine(line: string, uuid: string, record: string) returns (out: string, isUserLine: bool)
    ensures out == UpdatedLine(line, uuid, record)
    ensures isUserLine == IsProfileLine(line, uuid)
  {
    if line == "" {
      return line, false;
    }
    var parts := Split(line, ';');
    if |parts| < 8 {
      return line, false;
    }
    if parts[0] == uuid {
      return record, true;
    }
    return line, false;
  }

  /**
   * `updateUserDataInFile`: every line of the user (eight fields or more,
   * first field the id) is replaced by the new record, every other line,
   * the empty ones included, is written back as it was; a missing file is
   * not written. `found` is what the method reports on the console.
   */
  method UpdateUserDataInFile(nf: Numerals, file: Option<seq<string>>, uuid: string, p: Profile)
    returns (written: Option<seq<string>>, found: bool)
    ensures file.None? ==> written.None? && !found
    ensures file.Some? ==> written == Some(UpdatedUserData(file.value, uuid, UserRecord(nf, uuid, p)))
    ensures file.Some? ==> (found <==> HasProfileLine(file.value, uuid))
  {
    if file.None? {
      return None, false;
    }
    var lines := file.value;
    var record := UserRecord(nf, uuid, p);
    var out: seq<string> := [];
    found := false;
    var i := 0;
    while i < |lines|
      invariant 0 <= i <= |lines|
      invariant out == UpdatedUserData(lines[..i], uuid, record)
      invariant found <==> HasProfileLine(lines[..i], uuid)
    {
      var line := lines[i];
      UpdatedUserDataStep(lines, uuid, record, i);
      var updated, isUserLine := UpdateUserLine(line, uuid, record);
      if isUserLine {
        found := true;
      }
      out := out + [updated];
      i := i + 1;
    }
    assert lines[..i] == lines;
    return Some(out), found;
  }

  /** With no line of the user the file content is unchanged. */
  lemma UpdateOfUnknownUuid(lines: seq<string>, uuid: string, record: string)
    requires !HasProfileLine(lines, uuid)
    ensures UpdatedUserData(lines, uuid, record) == lines
  {
    NoProfileLineAt(lines, uuid);
    var r := UpdatedUserData(lines, uuid, record);
    assert forall k :: 0 <= k < |lines| ==> r[k] == lines[k];
  }

  /** A file without a line of the user has no such line at any index. */
  lemma {:induction false} NoProfileLineAt(lines: seq<string>, uuid: string)
    requires !HasProfileLine(lines, uuid)
    ensures forall k :: 0 <= k < |lines| ==> !IsProfileLine(lines[k], uuid)
  {
    if |lines| > 0 {
      var front := lines[..|lines| - 1];
      assert !HasProfileLine(front, uuid) && !IsProfileLine(lines[|lines| - 1], uuid);
      NoProfileLineAt(front, uuid);
      forall k | 0 <= k < |lines|
        ensures !IsProfileLine(lines[k], uuid)
      {
        if k < |front| {
          assert front[k] == lines[k];
        }
      }
    }
  }

  /** One more line rewritten, and one more line searched. */
  lemma UpdatedUserDataStep(lines: seq<string>, uuid: string, record: string, i: nat)
    requires i < |lines|
    ensures UpdatedUserData(lines[..i + 1], uuid, record) == UpdatedUserData(lines[..i], uuid, record) + [UpdatedLine(lines[i], uuid, record)]
    ensures HasProfileLine(lines[..i + 1], uuid) <==> HasProfileLine(lines[..i], uuid) || IsProfileLine(lines[i], uuid)
  {
    assert lines[..i + 1][..i] == lines[..i];
    assert lines[..i + 1][i] == lines[i];
  }

  /** Saving the same record twice writes what saving it once wrote. */
  lemma UpdateIdempotent(lines: seq<string>, uuid: string, record: string)
    requires IsProfileLine(record, uuid)
    ensures UpdatedUserData(UpdatedUserData(lines, uuid, record), uuid, record) == UpdatedUserData(lines, uuid, record)
  {
  }

  /** After rewriting the user's record, loading the profile gives the new values. */
  lemma {:induction false} LoadAfterUpdate(nf: Numerals, lines: seq<string>, uuid: string, p: Profile)
    requires RoundTrips(nf, p.weight) && RoundTrips(nf, p.height) && StorableProfile(uuid, p) && HasProfileLine(lines, uuid)
    ensures FindProfile(nf, uuid, UpdatedUserData(lines, uuid, UserRecord(nf, uuid, p))) == Some(p)
  {
    var record := UserRecord(nf, uuid, p);
    var front := lines[..|lines| - 1];
    var r := UpdatedUserData(lines, uuid, record);
    assert r[..|r| - 1] == UpdatedUserData(front, uuid, record);
    if HasProfileLine(front, uuid) {
      LoadAfterUpdate(nf, front, uuid, p);
    } else {
      UpdateOfUnknownUuid(front, uuid, record);
      FindProfileFound(nf, uuid, front);
      UserRecordReadsBack(nf, uuid, p);
    }
  }

  // ----- the BMI gauge -----

  /** `weight / (height / 100)²` when the stored height (in cm) is positive; otherwise no BMI is shown. */
  function ShownBmi(weight: real, heightCm: real): (r: Option<real>)
    ensures r.Some? <==> heightCm > 0.0
    ensures r.Some? ==> r.value * (heightCm / 100.0) * (heightCm / 100.0) == weight
  {
    if heightCm > 0.0 then
      var heightInMeters := heightCm / 100.0;
      Some(weight / (heightInMeters * heightInMeters))
    else None
  }

  /** `setBMI`'s category. */
  function BmiCategory(bmi: real): string
  {
    if bmi < 18.5 then "Underweight"
    else if bmi < 25.0 then "Normal weight"
    else if bmi < 30.0 then "Overweight"
    else "Obesity"
  }

  /** The category's place on the gauge, from 0 (underweight) to 3 (obesity). */
  function CategoryRank(category: string): nat
  {
    if category == "Underweight" then 0
    else if category == "Normal weight" then 1
    else if category == "Overweight" then 2
    else 3
  }

  /** Each category is a half-open band of BMI values. */
  lemma BmiCategoryBands(bmi: real)
    ensures BmiCategory(bmi) == "Underweight" <==> bmi < 18.5
    ensures BmiCategory(bmi) == "Normal weight" <==> 18.5 <= bmi < 25.0
    ensures BmiCategory(bmi) == "Overweight" <==> 25.0 <= bmi < 30.0
    ensures BmiCategory(bmi) == "Obesity" <==> 30.0 <= bmi
  {
  }

  /** A higher BMI never falls in a lower category. */
  lemma BmiCategoryMonotonic(a: real, b: real)
    requires a <= b
    ensures CategoryRank(BmiCategory(a)) <= CategoryRank(BmiCategory(b))
  {
  }

  // ----- the weights file -----

  /** One weight entry, `date~weight`. */
  function WeightEntryText(nf: Numerals, date: string, weight: real): string
  {
    date + "~" + nf.show(weight)
  }

  /** A line `updateWeightsDataInFile` treats as the user's: not blank, two fields or more, the first one the id. */
  predicate IsUserWeightsLine(line: string, uuid: string)
  {
    Trim(line) != "" && |Split(line, ';')| >= 2 && Split(line, ';')[0] == uuid
  }

  /** Some entry after the id starts with `date~`. */
  predicate DateSaved(parts: seq<string>, date: string)
  {
    exists i :: 1 <= i < |parts| && StartsWith(parts[i], date + "~")
  }

  /** The user's line rebuilt from its fields, with the entry appended unless its date is there. */
  function RebuiltWeightsLine(uuid: string, parts: seq<string>, date: string, entry: string): string
    requires |parts| >= 1
  {
    uuid + SeparatedTail(parts[1..], ';') + (if DateSaved(parts, date) then "" else ";" + entry)
  }

  function UpdatedWeightsLine(line: string, uuid: string, date: string, entry: string): string
  {
    if IsUserWeightsLine(line, uuid) then RebuiltWeightsLine(uuid, Split(line, ';'), date, entry) else line
  }

  function UpdatedWeightsAll(lines: seq<string>, uuid: string, date: string, entry: string): (r: seq<string>)
    ensures |r| == |lines|
    ensures forall k :: 0 <= k < |lines| ==> r[k] == UpdatedWeightsLine(lines[k], uuid, date, entry)
  {
    if |lines| == 0 then []
    else
      var front := UpdatedWeightsAll(lines[..|lines| - 1], uuid, date, entry);
      front + [UpdatedWeightsLine(lines[|lines| - 1], uuid, date, entry)]
  }

  predicate HasUserWeightsLine(lines: seq<string>, uuid: string)
  {
    |lines| > 0 && (HasUserWeightsLine(lines[..|lines| - 1], uuid) || IsUserWeightsLine(lines[|lines| - 1], uuid))
  }

  /** The weights file after `updateWeightsDataInFile`. */
  function UpdatedWeights(lines: seq<string>, uuid: string, date: string, entry: string): seq<string>
  {
    UpdatedWeightsAll(lines, uuid, date, entry) + (if HasUserWeightsLine(lines, uuid) then [] else [uuid + ";" + entry])
  }

  /** The inner loop: the id, then `;` and each later field, and the entry when its date is new. */
  method RebuildUserLine(uuid: string, parts: seq<string>, date: string, entry: string) returns (line: string)
    requires |parts| >= 1
    ensures line == RebuiltWeightsLine(uuid, parts, date, entry)
  {
    var dateAlreadySaved := false;
    line := uuid;
    var i := 1;
    while i < |parts|
      invariant 1 <= i <= |parts|
      invariant line == uuid + SeparatedTail(parts[1..i], ';')
      invariant dateAlreadySaved <==> exists j :: 1 <= j < i && StartsWith(parts[j], date + "~")
    {
      if StartsWith(parts[i], date + "~") {
        dateAlreadySaved := true;
      }
      SeparatedTailAppend(parts[1..i], parts[i], ';');
      assert parts[1..i + 1] == parts[1..i] + [parts[i]];
      line := line + ";" + parts[i];
      i := i + 1;
    }
    assert parts[1..i] == parts[1..];
    if !dateAlreadySaved {
      line := line + ";" + entry;
    }
  }

  /** The body of the outer loop: the line to write, and whether it was the user's. */
  method UpdateWeightsLine(line: string, uuid: string, date: string, entry: string) returns (out: string, isUserLine: bool)
    ensures out == UpdatedWeightsLine(line, uuid, date, entry)
    ensures isUserLine == IsUserWeightsLine(line, uuid)
  {
    if Trim(line) == "" {
      return line, false;
    }
    var parts := Split(line, ';');
    if |parts| < 2 {
      return line, false;
    }
    if parts[0] == uuid {
      out := RebuildUserLine(uuid, parts, date, entry);
      return out, true;
    }
    return line, false;
  }

  /**
   * `updateWeightsDataInFile`: the user's lines are rebuilt field by field
   * with `date~weight` appended when no entry has that date, other lines are
   * copied in order, and with no line of the user `uuid;date~weight` is
   * added at the end; a missing file is created empty first.
   */
  method UpdateWeightsDataInFile(nf: Numerals, file: Option<seq<string>>, uuid: string, newDate: string, newWeight: real)
    returns (written: seq<string>)
    ensures written == UpdatedWeights(if file.Some? then file.value else [], uuid, newDate, WeightEntryText(nf, newDate, newWeight))
  {
    var lines := if file.Some? then file.value else [];
    var entry := WeightEntryText(nf, newDate, newWeight);
    var foundUserLine := false;
    written := [];
    var i := 0;
    while i < |lines|
      invariant 0 <= i <= |lines|
      invariant written == UpdatedWeightsAll(lines[..i], uuid, newDate, entry)
      invariant foundUserLine <==> HasUserWeightsLine(lines[..i], uuid)
    {
      var line := lines[i];
      UpdatedWeightsStep(lines, i, uuid, newDate, entry);
      var rebuilt, isUserLine := UpdateWeightsLine(line, uuid, newDate, entry);
      if isUserLine {
        foundUserLine := true;
      }
      written := written + [rebuilt];
      i := i + 1;
    }
    assert lines[..i] == lines;
    if !foundUserLine {
      written := written + [uuid + ";" + entry];
    } else {
      assert written + [] == written;
    }
  }

  // ----- properties of the weights update -----

  /** A user's line is written back as its fields joined again, with the entry as a last field when its date is new. */
  lemma RebuiltAsJoin(line: string, uuid: string, date: string, entry: string)
    requires IsUserWeightsLine(line, uuid)
    ensures var parts := Split(line, ';');
      UpdatedWeightsLine(line, uuid, date, entry) == Join(parts + (if DateSaved(parts, date) then [] else [entry]), ';')
  {
    var parts := Split(line, ';');
    JoinAsHeadAndTail(parts, ';');
    if !DateSaved(parts, date) {
      var ext := parts + [entry];
      var tail := SeparatedTail(parts[1..], ';');
      JoinAsHeadAndTail(ext, ';');
      assert ext[1..] == parts[1..] + [entry];
      SeparatedTailAppend(parts[1..], entry, ';');
      assert Join(ext, ';') == uuid + (tail + [';'] + entry);
      assert uuid + (tail + [';'] + entry) == uuid + tail + (";" + entry);
      assert RebuiltWeightsLine(uuid, parts, date, entry) == uuid + tail + (";" + entry);
      assert UpdatedWeightsLine(line, uuid, date, entry) == RebuiltWeightsLine(uuid, parts, date, entry);
      assert parts + (if DateSaved(parts, date) then [] else [entry]) == ext;
    } else {
      assert parts + [] == parts;
      assert RebuiltWeightsLine(uuid, parts, date, entry) == uuid + SeparatedTail(parts[1..], ';');
    }
  }

  /** A join of at least two fields is not blank: the first separator survives trimming. */
  lemma JoinNotBlank(fs: seq<string>)
    requires |fs| >= 2
    ensures Trim(Join(fs, ';')) != ""
  {
    JoinAsHeadAndTail(fs, ';');
    assert Join(fs, ';')[|fs[0]|] == ';';
    TrimKeepsVisible(Join(fs, ';'), |fs[0]|);
  }

  /** The fields of a rewritten line of the user: its old fields, then the entry when its date is new. */
  lemma UpdatedWeightsLineFields(line: string, uuid: string, date: string, entry: string)
    requires ';' !in entry && entry != ""
    requires IsUserWeightsLine(line, uuid)
    ensures var parts := Split(line, ';');
      var once := UpdatedWeightsLine(line, uuid, date, entry);
      && Split(once, ';') == parts + (if DateSaved(parts, date) then [] else [entry])
      && IsUserWeightsLine(once, uuid)
  {
    var parts := Split(line, ';');
    var saved := DateSaved(parts, date);
    var ext := parts + (if saved then [] else [entry]);
    var once := UpdatedWeightsLine(line, uuid, date, entry);
    RebuiltAsJoin(line, uuid, date, entry);
    assert once == Join(ext, ';');
    if saved {
      SplitLastNonEmpty(line, ';');
    }
    assert ext[|ext| - 1] != "";
    assert forall i :: 0 <= i < |ext| ==> ';' !in ext[i] by {
      forall i | 0 <= i < |ext|
        ensures ';' !in ext[i]
      {
        if i < |parts| {
          assert ext[i] == parts[i];
        }
      }
    }
    SplitOfJoin(ext, ';');
    JoinNotBlank(ext);
  }

  /**
   * Updating a line twice with entries of the same date changes it only
   * once, and a line of the user stays a line of the user.
   */
  lemma WeightsLineIdempotent(line: string, uuid: string, date: string, e1: string, e2: string)
    requires ';' !in e1 && StartsWith(e1, date + "~")
    ensures var once := UpdatedWeightsLine(line, uuid, date, e1);
      && UpdatedWeightsLine(once, uuid, date, e2) == once
      && (IsUserWeightsLine(line, uuid) <==> IsUserWeightsLine(once, uuid))
  {
    var once := UpdatedWeightsLine(line, uuid, date, e1);
    if IsUserWeightsLine(line, uuid) {
      var parts := Split(line, ';');
      var saved := DateSaved(parts, date);
      var ext := parts + (if saved then [] else [e1]);
      UpdatedWeightsLineFields(line, uuid, date, e1);
      RebuiltAsJoin(line, uuid, date, e1);
      assert once == Join(ext, ';');
      assert DateSaved(ext, date) by {
        if saved {
          var i :| 1 <= i < |parts| && StartsWith(parts[i], date + "~");
          assert ext[i] == parts[i];
        } else {
          assert ext[|ext| - 1] == e1;
        }
      }
      RebuiltAsJoin(once, uuid, date, e2);
      assert ext + [] == ext;
    }
  }

  /** The same for every line of the file. */
  lemma {:induction false} WeightsAllIdempotent(lines: seq<string>, uuid: string, date: string, e1: string, e2: string)
    requires ';' !in e1 && StartsWith(e1, date + "~")
    ensures var once := UpdatedWeightsAll(lines, uuid, date, e1);
      && UpdatedWeightsAll(once, uuid, date, e2) == once
      && (HasUserWeightsLine(lines, uuid) <==> HasUserWeightsLine(once, uuid))
  {
    if |lines| > 0 {
      var front := lines[..|lines| - 1];
      var once := UpdatedWeightsAll(lines, uuid, date, e1);
      WeightsAllIdempotent(front, uuid, date, e1, e2);
      WeightsLineIdempotent(lines[|lines| - 1], uuid, date, e1, e2);
      assert once[..|once| - 1] == UpdatedWeightsAll(front, uuid, date, e1);
    }
  }

  /** The line added for a new user is the user's, and a second entry of the same date leaves it alone. */
  lemma NewWeightsLineKept(uuid: string, date: string, e1: string, e2: string)
    requires ';' !in uuid && ';' !in e1 && StartsWith(e1, date + "~")
    ensures IsUserWeightsLine(uuid + ";" + e1, uuid)
    ensures UpdatedWeightsLine(uuid + ";" + e1, uuid, date, e2) == uuid + ";" + e1
  {
    var line := uuid + ";" + e1;
    assert Join([uuid, e1], ';') == line;
    SplitOfJoin([uuid, e1], ';');
    JoinNotBlank([uuid, e1]);
    RebuiltAsJoin(line, uuid, date, e2);
    assert DateSaved([uuid, e1], date);
    assert [uuid, e1] + [] == [uuid, e1];
  }

  /** One more line rewritten, and one more line searched. */
  lemma UpdatedWeightsAllSnoc(lines: seq<string>, line: string, uuid: string, date: string, entry: string)
    ensures UpdatedWeightsAll(lines + [line], uuid, date, entry)
      == UpdatedWeightsAll(lines, uuid, date, entry) + [UpdatedWeightsLine(line, uuid, date, entry)]
    ensures HasUserWeightsLine(lines + [line], uuid) <==> HasUserWeightsLine(lines, uuid) || IsUserWeightsLine(line, uuid)
  {
    assert (lines + [line])[..|lines|] == lines;
  }

  /** The same, one prefix of a file to the next. */
  lemma UpdatedWeightsStep(lines: seq<string>, i: nat, uuid: string, date: string, entry: string)
    requires i < |lines|
    ensures UpdatedWeightsAll(lines[..i + 1], uuid, date, entry)
      == UpdatedWeightsAll(lines[..i], uuid, date, entry) + [UpdatedWeightsLine(lines[i], uuid, date, entry)]
    ensures HasUserWeightsLine(lines[..i + 1], uuid) <==> HasUserWeightsLine(lines[..i], uuid) || IsUserWeightsLine(lines[i], uuid)
  {
    assert lines[..i + 1] == lines[..i] + [lines[i]];
    UpdatedWeightsAllSnoc(lines[..i], lines[i], uuid, date, entry);
  }

  /**
   * Saving a weight twice for the same date writes what saving it once
   * wrote, whatever the second weight: the second save finds the date.
   */
  lemma UpdateWeightsIdempotent(nf: Numerals, lines: seq<string>, uuid: string, date: string, w1: real, w2: real)
    requires RoundTrips(nf, w1) && ';' !in uuid && ';' !in date
    ensures var once := UpdatedWeights(lines, uuid, date, WeightEntryText(nf, date, w1));
      UpdatedWeights(once, uuid, date, WeightEntryText(nf, date, w2)) == once
  {
    var e1 := WeightEntryText(nf, date, w1);
    var e2 := WeightEntryText(nf, date, w2);
    ShowFreeOfSeparators(nf, w1);
    assert e1[..|date| + 1] == date + "~";
    if HasUserWeightsLine(lines, uuid) {
      IdempotentForKnownUser(lines, uuid, date, e1, e2);
    } else {
      IdempotentForNewUser(lines, uuid, date, e1, e2);
    }
  }

  /** A user with a line: the second save rewrites the rewritten lines to themselves. */
  lemma IdempotentForKnownUser(lines: seq<string>, uuid: string, date: string, e1: string, e2: string)
    requires ';' !in e1 && StartsWith(e1, date + "~") && HasUserWeightsLine(lines, uuid)
    ensures var once := UpdatedWeights(lines, uuid, date, e1);
      UpdatedWeights(once, uuid, date, e2) == once
  {
    var all := UpdatedWeightsAll(lines, uuid, date, e1);
    WeightsAllIdempotent(lines, uuid, date, e1, e2);
    assert all + [] == all;
    assert UpdatedWeights(lines, uuid, date, e1) == all;
    UpdatedWeightsOfFixed(all, uuid, date, e2);
  }

  /** A user without a line: the second save finds the line the first one added. */
  lemma IdempotentForNewUser(lines: seq<string>, uuid: string, date: string, e1: string, e2: string)
    requires ';' !in uuid && ';' !in e1 && StartsWith(e1, date + "~") && !HasUserWeightsLine(lines, uuid)
    ensures var once := UpdatedWeights(lines, uuid, date, e1);
      UpdatedWeights(once, uuid, date, e2) == once
  {
    var all := UpdatedWeightsAll(lines, uuid, date, e1);
    var line := uuid + ";" + e1;
    WeightsAllIdempotent(lines, uuid, date, e1, e2);
    NewWeightsLineKept(uuid, date, e1, e2);
    assert UpdatedWeights(lines, uuid, date, e1) == all + [line];
    AddedLineFixed(all, line, uuid, date, e2);
  }

  /** A file holding the user's line that a save leaves as it is, with one more such line after it. */
  lemma AddedLineFixed(all: seq<string>, line: string, uuid: string, date: string, e: string)
    requires UpdatedWeightsAll(all, uuid, date, e) == all
    requires IsUserWeightsLine(line, uuid) && UpdatedWeightsLine(line, uuid, date, e) == line
    ensures UpdatedWeights(all + [line], uuid, date, e) == all + [line]
  {
    UpdatedWeightsAllSnoc(all, line, uuid, date, e);
    UpdatedWeightsOfFixed(all + [line], uuid, date, e);
  }

  /** A file with a line of the user whose lines a save leaves alone is written back unchanged. */
  lemma UpdatedWeightsOfFixed(lines: seq<string>, uuid: string, date: string, e: string)
    requires HasUserWeightsLine(lines, uuid) && UpdatedWeightsAll(lines, uuid, date, e) == lines
    ensures UpdatedWeights(lines, uuid, date, e) == lines
  {
    assert lines + [] == lines;
  }

  // ----- the screen -----

  /** The profile screen's state: the logged-in user's id and the values it shows. */
  class AboutMeScreen {
    var userUUID: string
    var userName: string
    var userWeight: real
    var userHeight: real
    var userAge: Int32
    var userGender: string
    var dateOfAccountCreation: string
    var dateOfCurrentWeight: string

    /** The values the screen shows, as one profile. */
    function Shown(): Profile
      reads this
    {
      Profile(userName, userWeight, userHeight, userAge, userGender, dateOfAccountCreation, dateOfCurrentWeight)
    }

    /** The screen of the logged-in user before anything is loaded. */
    constructor (loggedInUserUUID: string)
      ensures userUUID == loggedInUserUUID
      ensures Shown() == Profile("", 0.0, 0.0, 0, "", "", "")
    {
      userUUID := loggedInUserUUID;
      userName := "";
      userWeight := 0.0;
      userHeight := 0.0;
      userAge := 0;
      userGender := "";
      dateOfAccountCreation := "";
      dateOfCurrentWeight := "";
    }

    /**
     * `loadUserDataFromFile`: the first line of the user sets every shown
     * value, unreadable numbers becoming 0; without such a line, or without
     * the file, nothing changes.
     */
    method LoadUserDataFromFile(nf: Numerals, file: Option<seq<string>>)
      modifies this
      ensures userUUID == old(userUUID)
      ensures file.Some? && FindProfile(nf, userUUID, file.value).Some? ==> Shown() == FindProfile(nf, userUUID, file.value).value
      ensures file.None? || FindProfile(nf, userUUID, file.value).None? ==> Shown() == old(Shown())
    {
      if file.None? {
        return;
      }
      var lines := file.value;
      var uuid := userUUID;
      var i := 0;
      while i < |lines|
        invariant 0 <= i <= |lines|
        invariant FindProfile(nf, uuid, lines[..i]).None?
        invariant userUUID == old(userUUID) && Shown() == old(Shown())
      {
        var line := lines[i];
        assert lines[..i + 1][..i] == lines[..i];
        assert lines[..i + 1][i] == line;
        if line != "" {
          var parts := Split(line, ';');
          if |parts| >= 8 && parts[0] == uuid {
            var p := ReadProfile(nf, parts);
            Show(p);
            assert FindProfile(nf, uuid, lines[..i + 1]) == Some(p);
            FindProfileOfPrefix(nf, uuid, lines, i + 1);
            return;
          }
        }
        i := i + 1;
      }
      assert lines[..i] == lines;
    }

    /** Sets every shown value from `p`. */
    method Show(p: Profile)
      modifies this
      ensures userUUID == old(userUUID) && Shown() == p
    {
      userName := p.name;
      userWeight := p.weight;
      userHeight := p.height;
      userAge := p.age;
      userGender := p.gender;
      dateOfAccountCreation := p.accountCreationDate;
      dateOfCurrentWeight := p.currentWeightDate;
    }

    /** The assignments of a matching line; every unreadable number is caught and becomes 0. */
    static method ReadProfile(nf: Numerals, parts: seq<string>) returns (p: Profile)
      requires |parts| >= 8
      ensures p == ProfileOf(nf, parts)
    {
      var weight := ParseDouble(nf, parts[2]);
      var userWeight := if weight.Some? then weight.value else 0.0;
      var height := ParseDouble(nf, parts[3]);
      var userHeight := if height.Some? then height.value else 0.0;
      var age := ParseInt(parts[4]);
      var userAge: Int32 := if age.Some? then age.value else 0;
      p := Profile(parts[1], userWeight, userHeight, userAge, parts[5], parts[6], parts[7]);
    }

    /**
     * The edit dialog's "Save": the trimmed name, the weight and height read
     * from their fields (keeping the shown ones when unreadable) and `now` as
     * the weight's date are shown, the user's record is rewritten with them,
     * and the weight is added to the weights file.
     */
    method SaveEdits(nf: Numerals, nameText: string, weightText: string, heightText: string, now: string,
                     usersFile: Option<seq<string>>, weightsFile: Option<seq<string>>)
      returns (usersWritten: Option<seq<string>>, weightsWritten: seq<string>)
      modifies this
      ensures userUUID == old(userUUID)
      ensures var w := ParseDouble(nf, Trim(weightText));
        var h := ParseDouble(nf, Trim(heightText));
        Shown() == old(Shown()).(name := Trim(nameText),
                                 weight := if w.Some? then w.value else old(userWeight),
                                 height := if h.Some? then h.value else old(userHeight),
                                 currentWeightDate := now)
      ensures usersWritten == if usersFile.None? then None
                              else Some(UpdatedUserData(usersFile.value, userUUID, UserRecord(nf, userUUID, Shown())))
      ensures weightsWritten == UpdatedWeights(if weightsFile.Some? then weightsFile.value else [],
                                               userUUID, now, WeightEntryText(nf, now, userWeight))
    {
      var newName := Trim(nameText);
      var w := ParseDouble(nf, Trim(weightText));
      var newWeight := if w.Some? then w.value else userWeight;
      var h := ParseDouble(nf, Trim(heightText));
      var newHeight := if h.Some? then h.value else userHeight;
      var uuid := userUUID;
      var edited := Profile(newName, newWeight, newHeight, userAge, userGender, dateOfAccountCreation, now);
      var found;
      usersWritten, found := UpdateUserDataInFile(nf, usersFile, uuid, edited);
      Show(edited);
      weightsWritten := UpdateWeightsDataInFile(nf, weightsFile, uuid, now, newWeight);
    }
  }
}
