// The personal-data form a new user fills in after registering: the order
// of its checks, the age from the date of birth, and the usersData.txt
// record it appends, which the profile and main screens read back.

module AskForData {
  import opened JavaText
  import opened JavaNumbers
  import opened OurCoaches
  import Register
  import AboutMe
  import MainScreen

  /** A `LocalDate`. */
  datatype Date = Date(year: int, month: int, day: int)

  /** A date `LocalDate` can hold: its year range, a month of the year and a day of a month. */
  predicate ValidDate(d: Date)
  {
    -999_999_999 <= d.year <= 999_999_999 && 1 <= d.month <= 12 && 1 <= d.day <= 31
  }

  /** `a.isBefore(b)`. */
  predicate IsBefore(a: Date, b: Date)
  {
    a.year < b.year || (a.year == b.year && (a.month < b.month || (a.month == b.month && a.day < b.day)))
  }

  /**
   * `Period.between(start, end).getYears()`: the months between the two
   * dates, one less when the end's day of the month comes before the
   * start's, divided by twelve with Java's truncation.
   */
  function YearsBetween(start: Date, end: Date): int
  {
    var totalMonths := (end.year * 12 + end.month - 1) - (start.year * 12 + start.month - 1);
    var days := end.day - start.day;
    var months := if totalMonths > 0 && days < 0 then totalMonths - 1
                  else if totalMonths < 0 && days > 0 then totalMonths + 1
                  else totalMonths;
    JDiv(months, 12)
  }

  /** Whether the day of the year of `a` comes before that of `b`. */
  predicate EarlierInYear(a: Date, b: Date)
  {
    a.month < b.month || (a.month == b.month && a.day < b.day)
  }

  /** The record `uuid;name;weight;height;age;gender;created;created` the form appends to usersData.txt. */
  function UserDataLine(nf: Numerals, uuid: string, name: string, weight: real, height: Int32, age: int,
                        gender: string, created: string): string
  {
    uuid + ";" + name + ";" + nf.show(weight) + ";" + IntToString(height) + ";" + IntToString(age) + ";"
      + gender + ";" + created + ";" + created
  }

  /** What the submit button does: the two numeric reads, then the other checks, then the new account. */
  datatype SubmitOutcome =
    | NotNumeric
    | Rejected(message: string)
    | Submitted(uuid: string, record: string)

  function SubmitMessage(outcome: SubmitOutcome): string
  {
    match outcome
    case NotNumeric => "Weight and Height must be numeric."
    case Rejected(m) => m
    case Submitted(_, _) => "Data submitted successfully!"
  }

  /**
   * The submit handler's decision. The weight is read as a double and the
   * height as an `int` before anything else; then an empty name, no date of
   * birth or no gender is refused, then a date of birth that is not before
   * today. `uniqueID` is the new random id, `created` the formatted creation
   * time and `today` the current date.
   */
  function SubmitOutcomeOf(nf: Numerals, name: string, weightText: string, heightText: string,
                           dob: Option<Date>, gender: Option<string>, today: Date,
                           uniqueID: string, created: string): (r: SubmitOutcome)
    ensures r == NotNumeric <==> ParseDouble(nf, weightText).None? || ParseInt(heightText).None?
    ensures r == Rejected("Fields cannot be empty.") <==>
      r != NotNumeric && (name == "" || dob.None? || gender.None?)
    ensures r == Rejected("Date of Birth cannot be today or a future date.") <==>
      r != NotNumeric && name != "" && dob.Some? && gender.Some? && !IsBefore(dob.value, today)
    ensures r.Submitted? <==>
      && ParseDouble(nf, weightText).Some? && ParseInt(heightText).Some?
      && name != "" && dob.Some? && gender.Some? && IsBefore(dob.value, today)
    ensures r.Submitted? ==>
      && r.uuid == uniqueID
      && r.record == UserDataLine(nf, uniqueID, name, ParseDouble(nf, weightText).value, ParseInt(heightText).value,
                                  YearsBetween(dob.value, today), gender.value, created)
  {
    var weight := ParseDouble(nf, weightText);
    var height := ParseInt(heightText);
    if weight.None? || height.None? then NotNumeric
    else if name == "" || dob.None? || gender.None? then Rejected("Fields cannot be empty.")
    else if !IsBefore(dob.value, today) then Rejected("Date of Birth cannot be today or a future date.")
    else
      var age := YearsBetween(dob.value, today);
      Submitted(uniqueID, UserDataLine(nf, uniqueID, name, weight.value, height.value, age, gender.value, created))
  }

  class AskForDataScreen {
    const login: string
    const password: string
    /** `accDate`, held as the formatted creation time; `None` until a submission succeeds. */
    var accDate: Option<string>

    constructor(login: string, password: string)
      ensures this.login == login && this.password == password && accDate.None?
    {
      this.login := login;
      this.password := password;
      accDate := None;
    }

    /**
     * The submit button: on success the account is added through the
     * registration screen's `addNewUser`, the creation time is kept and the
     * record is appended to usersData.txt; the returned outcome carries the
     * id that becomes `loggedInUserUUID`. Otherwise nothing is written.
     */
    method HandleSubmit(register: Register.RegisterScreen, nf: Numerals, name: string, weightText: string,
                        heightText: string, dob: Option<Date>, gender: Option<string>, today: Date,
                        uniqueID: string, created: string,
                        loginFile: Option<seq<string>>, usersFile: Option<seq<string>>)
      returns (outcome: SubmitOutcome, loginLines: seq<string>, usersLines: seq<string>)
      modifies this, register
      ensures outcome == SubmitOutcomeOf(nf, name, weightText, heightText, dob, gender, today, uniqueID, created)
      ensures outcome.Submitted? ==>
        && loginLines == LinesOf(loginFile) + [Register.NewUserLine(uniqueID, login, password)]
        && usersLines == LinesOf(usersFile) + [outcome.record]
        && register.loginData == old(register.loginData)[login := password]
        && accDate == Some(created)
      ensures !outcome.Submitted? ==>
        && loginLines == LinesOf(loginFile) && usersLines == LinesOf(usersFile)
        && register.loginData == old(register.loginData) && accDate == old(accDate)
    {
      loginLines := LinesOf(loginFile);
      usersLines := LinesOf(usersFile);
      var weight := ParseDouble(nf, weightText);
      var height := ParseInt(heightText);
      if weight.None? || height.None? {
        return NotNumeric, loginLines, usersLines;
      }
      if name == "" || dob.None? || gender.None? {
        return Rejected("Fields cannot be empty."), loginLines, usersLines;
      }
      if !IsBefore(dob.value, today) {
        return Rejected("Date of Birth cannot be today or a future date."), loginLines, usersLines;
      }
      var userUUID;
      userUUID, loginLines := register.AddNewUser(uniqueID, login, password, loginFile);
      accDate := Some(created);
      var age := YearsBetween(dob.value, today);
      var userDataLine := userUUID + ";" + name + ";" + nf.show(weight.value) + ";" + IntToString(height.value) + ";"
        + IntToString(age) + ";" + gender.value + ";" + created + ";" + created;
      usersLines := usersLines + [userDataLine];
      outcome := Submitted(userUUID, userDataLine);
    }
  }

  // ----- the age -----

  /** Euclidean division is determined by a quotient and a remainder in range. */
  lemma DivOfParts(n: int, q: int, k: int)
    requires n >= 0 && 0 <= k < 12 && n == 12 * q + k
    ensures JDiv(n, 12) == q
  {
  }

  /**
   * The age is the whole years lived: the difference of the years, one less
   * when this year's birthday is still to come; it is never negative and
   * fits an `int`.
   */
  lemma AgeOfBirthday(dob: Date, today: Date)
    requires ValidDate(dob) && ValidDate(today) && IsBefore(dob, today)
    ensures YearsBetween(dob, today) == today.year - dob.year - (if EarlierInYear(today, dob) then 1 else 0)
    ensures 0 <= YearsBetween(dob, today) <= INT_MAX
  {
    var y := today.year - dob.year;
    var totalMonths := (today.year * 12 + today.month - 1) - (dob.year * 12 + dob.month - 1);
    assert totalMonths == 12 * y + (today.month - dob.month);
    var adjust := if today.day < dob.day then 1 else 0;
    if EarlierInYear(today, dob) {
      assert y >= 1;
      if today.month < dob.month {
        DivOfParts(totalMonths - adjust, y - 1, 12 + today.month - dob.month - adjust);
      } else {
        DivOfParts(totalMonths - 1, y - 1, 11);
      }
    } else if today.month > dob.month {
      DivOfParts(totalMonths - adjust, y, today.month - dob.month - adjust);
    } else {
      DivOfParts(totalMonths, y, 0);
    }
  }

  // ----- the record read back -----

  /** `Double.parseDouble` reads the decimal text of the integer `n` as the value `n`. */
  predicate ReadsInteger(nf: Numerals, n: int)
  {
    nf.read(IntToString(n)) == Some(n as real)
  }

  /** The fields of the record, in order. */
  function RecordFields(nf: Numerals, uuid: string, name: string, weight: real, height: Int32, age: int,
                        gender: string, created: string): seq<string>
  {
    [uuid, name, nf.show(weight), IntToString(height), IntToString(age), gender, created, created]
  }

  /** The record is its fields joined by `;`. */
  lemma UserDataLineIsJoin(nf: Numerals, uuid: string, name: string, weight: real, height: Int32, age: int,
                           gender: string, created: string)
    ensures UserDataLine(nf, uuid, name, weight, height, age, gender, created)
      == Join(RecordFields(nf, uuid, name, weight, height, age, gender, created), ';')
  {
    var fs := RecordFields(nf, uuid, name, weight, height, age, gender, created);
    var i := 1;
    while i < 8
      invariant 1 <= i <= 8
      invariant Join(fs[..i], ';') == JoinedPrefix(fs, i)
    {
      assert fs[..i + 1] == fs[..i] + [fs[i]];
      JoinAppend(fs[..i], fs[i], ';');
      i := i + 1;
    }
    assert fs[..8] == fs;
    assert JoinedPrefix(fs, 2) == uuid + ";" + name;
    assert JoinedPrefix(fs, 4) == uuid + ";" + name + ";" + nf.show(weight) + ";" + IntToString(height);
    assert JoinedPrefix(fs, 6) == uuid + ";" + name + ";" + nf.show(weight) + ";" + IntToString(height) + ";"
      + IntToString(age) + ";" + gender;
  }

  /** The concatenation the record is written as, up to field `i`. */
  function JoinedPrefix(fs: seq<string>, i: nat): string
    requires 1 <= i <= |fs|
  {
    if i == 1 then fs[0] else JoinedPrefix(fs, i - 1) + ";" + fs[i - 1]
  }

  /**
   * The profile screen reads back the account just created: the name, the
   * weight, the height and the age entered, the gender, and the creation
   * time in both date fields, provided the name, gender, id and time hold no
   * `;` (the form does not check the name for one), the time is not empty
   * and the file has no earlier line of the id.
   */
  lemma SubmittedRecordReadsBack(nf: Numerals, lines: seq<string>, uuid: string, name: string, weight: real,
                                 height: Int32, dob: Date, today: Date, gender: string, created: string)
    requires RoundTrips(nf, weight) && ReadsInteger(nf, height as int)
    requires ValidDate(dob) && ValidDate(today) && IsBefore(dob, today)
    requires ';' !in uuid && ';' !in name && ';' !in gender && ';' !in created && created != ""
    requires !AboutMe.HasProfileLine(lines, uuid)
    ensures var record := UserDataLine(nf, uuid, name, weight, height, YearsBetween(dob, today), gender, created);
      AboutMe.FindProfile(nf, uuid, lines + [record])
        == Some(AboutMe.Profile(name, weight, height as real, YearsBetween(dob, today), gender, created, created))
  {
    var age := YearsBetween(dob, today);
    AgeOfBirthday(dob, today);
    var record := UserDataLine(nf, uuid, name, weight, height, age, gender, created);
    RecordSplits(nf, uuid, name, weight, height, age, gender, created);
    RecordProfile(nf, uuid, name, weight, height, age as Int32, gender, created);
    var all := lines + [record];
    assert all[..|lines|] == lines && all[|lines|] == record;
    AboutMe.FindProfileOfFirst(nf, uuid, all, |lines|);
  }

  /** The record splits into its eight fields, and is a line of the user. */
  lemma RecordSplits(nf: Numerals, uuid: string, name: string, weight: real, height: Int32, age: int,
                     gender: string, created: string)
    requires RoundTrips(nf, weight)
    requires ';' !in uuid && ';' !in name && ';' !in gender && ';' !in created && created != ""
    ensures Split(UserDataLine(nf, uuid, name, weight, height, age, gender, created), ';')
      == RecordFields(nf, uuid, name, weight, height, age, gender, created)
    ensures AboutMe.IsProfileLine(UserDataLine(nf, uuid, name, weight, height, age, gender, created), uuid)
  {
    var fs := RecordFields(nf, uuid, name, weight, height, age, gender, created);
    UserDataLineIsJoin(nf, uuid, name, weight, height, age, gender, created);
    ShowFreeOfSeparators(nf, weight);
    IntTextFreeOfSeparators(height as int);
    IntTextFreeOfSeparators(age);
    SplitOfJoin(fs, ';');
    JoinHasSeparator(fs, ';');
  }

  /** The fields of the record read back as the values written. */
  lemma RecordProfile(nf: Numerals, uuid: string, name: string, weight: real, height: Int32, age: Int32,
                      gender: string, created: string)
    requires RoundTrips(nf, weight) && ReadsInteger(nf, height as int)
    ensures AboutMe.ProfileOf(nf, RecordFields(nf, uuid, name, weight, height, age as int, gender, created))
      == AboutMe.Profile(name, weight, height as real, age as int, gender, created, created)
  {
    ParseDoubleOfShow(nf, weight);
    IntegerTrimFixed(height as int);
    ParseIntOfIntToString(age);
  }

  /** An integer numeral has no whitespace at its ends, so `parseDouble` reads it as it is. */
  lemma IntegerTrimFixed(n: int)
    ensures Trim(IntToString(n)) == IntToString(n)
  {
    IntToStringChars(n);
    assert NumeralText(IntToString(n));
    NumeralTrimFixed(IntToString(n));
    TrimOfFixed(IntToString(n));
  }

  /** The main screen then greets the new user by the name entered and shows the creation time. */
  lemma SubmittedUserGreeted(nf: Numerals, lines: seq<string>, uuid: string, name: string, weight: real,
                             height: Int32, dob: Date, today: Date, gender: string, created: string)
    requires RoundTrips(nf, weight) && ReadsInteger(nf, height as int)
    requires ValidDate(dob) && ValidDate(today) && IsBefore(dob, today)
    requires ';' !in uuid && ';' !in name && ';' !in gender && ';' !in created && created != ""
    requires !AboutMe.HasProfileLine(lines, uuid)
    ensures var record := UserDataLine(nf, uuid, name, weight, height, YearsBetween(dob, today), gender, created);
      MainScreen.UserDataOf(lines + [record], uuid) == Some((name, created))
  {
    var record := UserDataLine(nf, uuid, name, weight, height, YearsBetween(dob, today), gender, created);
    SubmittedRecordReadsBack(nf, lines, uuid, name, weight, height, dob, today, gender, created);
    MainScreen.AgreesWithProfile(nf, lines + [record], uuid);
  }
}
