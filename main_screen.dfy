// The main screen: the logged-in user's name and account creation date read
// from usersData.txt, the placeholders shown when they are missing, and the
// time since the account was created as days, hours and minutes.

module MainScreen {
  import opened JavaText
  import opened JavaNumbers
  import AboutMe

  /** The name and creation date on the first line of the user, read as the profile screen finds it. */
  function UserDataOf(lines: seq<string>, uuid: string): Option<(string, string)>
  {
    if |lines| == 0 then None
    else
      var found := UserDataOf(lines[..|lines| - 1], uuid);
      if found.Some? then found
      else if AboutMe.IsProfileLine(lines[|lines| - 1], uuid) then
        var parts := Split(lines[|lines| - 1], ';');
        Some((parts[1], parts[6]))
      else None
  }

  /** `totalMinutes / (24 * 60)` of Java's `long` arithmetic. */
  function Days(totalMinutes: int): int
  {
    JDiv(totalMinutes, 24 * 60)
  }

  /** `(totalMinutes % (24 * 60)) / 60`. */
  function Hours(totalMinutes: int): int
  {
    JDiv(JRem(totalMinutes, 24 * 60), 60)
  }

  /** `totalMinutes % 60`. */
  function Minutes(totalMinutes: int): int
  {
    JRem(totalMinutes, 60)
  }

  /** The duration line of the welcome text. */
  function WhichIsText(totalMinutes: int): string
  {
    "<br>Which is " + IntToString(Days(totalMinutes)) + " day(s) " + IntToString(Hours(totalMinutes)) + " hour(s) "
      + IntToString(Minutes(totalMinutes)) + " minute(s)"
  }

  class MainScreenState {
    /** `userName` and `dateOfAccountCreation`; `None` is Java's `null`. */
    var userName: Option<string>
    var dateOfAccountCreation: Option<string>

    /** The screen loads the logged-in user's data when it opens. */
    constructor(usersFile: Option<seq<string>>, userUUID: Option<string>)
      ensures userUUID.None? || usersFile.None? || UserDataOf(usersFile.value, userUUID.value).None? ==>
                userName.None? && dateOfAccountCreation.None?
      ensures userUUID.Some? && usersFile.Some? && UserDataOf(usersFile.value, userUUID.value).Some? ==>
                var (name, created) := UserDataOf(usersFile.value, userUUID.value).value;
                userName == Some(name) && dateOfAccountCreation == Some(created)
    {
      userName := None;
      dateOfAccountCreation := None;
      new;
      LoadUserDataFromFile(usersFile, userUUID);
    }

    /**
     * `loadUserDataFromFile`: with no logged-in user or no file nothing is
     * read; otherwise the first line with at least eight fields and the
     * user's id sets the name (field 1) and the creation date (field 6).
     */
    method LoadUserDataFromFile(file: Option<seq<string>>, userUUID: Option<string>)
      modifies this
      ensures userUUID.None? || file.None? || UserDataOf(file.value, userUUID.value).None? ==>
                userName == old(userName) && dateOfAccountCreation == old(dateOfAccountCreation)
      ensures userUUID.Some? && file.Some? && UserDataOf(file.value, userUUID.value).Some? ==>
                var (name, created) := UserDataOf(file.value, userUUID.value).value;
                userName == Some(name) && dateOfAccountCreation == Some(created)
    {
      if userUUID.None? || file.None? {
        return;
      }
      var uuid := userUUID.value;
      var lines := file.value;
      var i := 0;
      while i < |lines|
        invariant 0 <= i <= |lines|
        invariant UserDataOf(lines[..i], uuid).None?
        invariant userName == old(userName) && dateOfAccountCreation == old(dateOfAccountCreation)
      {
        assert lines[..i + 1][..i] == lines[..i];
        if lines[i] != "" {
          var parts := Split(lines[i], ';');
          if |parts| >= 8 && parts[0] == uuid {
            userName := Some(parts[1]);
            dateOfAccountCreation := Some(parts[6]);
            UserDataOfPrefix(lines, uuid, i + 1);
            return;
          }
        }
        i := i + 1;
      }
      assert lines[..i] == lines;
    }

    /** The name of the welcome text: the user's name, or "Guest" when it is missing or empty. */
    function NameText(): (r: string)
      reads this
      ensures r != ""
      ensures r == "Guest" <==> userName.None? || userName.value == "" || userName.value == "Guest"
    {
      if userName.Some? && userName.value != "" then userName.value else "Guest"
    }

    /** The date of the welcome text: the creation date, or "some time" when it is missing or empty. */
    function DateText(): (r: string)
      reads this
      ensures r != ""
      ensures r == "some time" <==> dateOfAccountCreation.None? || dateOfAccountCreation.value == "" || dateOfAccountCreation.value == "some time"
    {
      if dateOfAccountCreation.Some? && dateOfAccountCreation.value != "" then dateOfAccountCreation.value else "some time"
    }

    /**
     * The duration line: empty with no creation date, and empty when the
     * date does not parse. `elapsed` is the whole minutes from the parsed
     * creation time to now, `None` when `LocalDateTime.parse` fails.
     */
    function WhichIsLine(elapsed: Option<int>): (r: string)
      reads this
      ensures r != "" <==> dateOfAccountCreation.Some? && dateOfAccountCreation.value != "" && elapsed.Some?
      ensures r != "" ==> r == WhichIsText(elapsed.value)
    {
      if dateOfAccountCreation.Some? && dateOfAccountCreation.value != "" && elapsed.Some? then WhichIsText(elapsed.value)
      else ""
    }
  }

  // ----- properties -----

  lemma {:induction false} UserDataOfPrefix(lines: seq<string>, uuid: string, j: nat)
    requires 0 < j <= |lines| && UserDataOf(lines[..j - 1], uuid).None? && AboutMe.IsProfileLine(lines[j - 1], uuid)
    ensures UserDataOf(lines, uuid) == Some((Split(lines[j - 1], ';')[1], Split(lines[j - 1], ';')[6]))
    decreases |lines| - j
  {
    if j < |lines| {
      assert lines[..|lines| - 1][..j - 1] == lines[..j - 1];
      UserDataOfPrefix(lines[..|lines| - 1], uuid, j);
    } else {
      assert lines[..j] == lines;
      assert lines[..|lines| - 1] == lines[..j - 1];
    }
  }

  /**
   * The main screen and the profile screen read the same line: the name and
   * creation date shown here are those of the profile screen's record.
   */
  lemma {:induction false} AgreesWithProfile(nf: Numerals, lines: seq<string>, uuid: string)
    ensures UserDataOf(lines, uuid).None? <==> AboutMe.FindProfile(nf, uuid, lines).None?
    ensures UserDataOf(lines, uuid).Some? ==>
      UserDataOf(lines, uuid).value == (AboutMe.FindProfile(nf, uuid, lines).value.name,
                                         AboutMe.FindProfile(nf, uuid, lines).value.accountCreationDate)
  {
    if |lines| > 0 {
      AgreesWithProfile(nf, lines[..|lines| - 1], uuid);
    }
  }

  /**
   * The decomposition of the minutes: for any count (a clock set back gives
   * a negative one) the parts add back up, and each stays below its unit;
   * for a non-negative count every part is non-negative.
   */
  lemma Decomposition(m: int)
    ensures Days(m) * 1440 + Hours(m) * 60 + Minutes(m) == m
    ensures -24 < Hours(m) < 24 && -60 < Minutes(m) < 60
    ensures m >= 0 ==> Days(m) >= 0 && 0 <= Hours(m) < 24 && 0 <= Minutes(m) < 60
  {
    JDivRem(m, 1440);
    JDivRem(JRem(m, 1440), 60);
    JDivRem(m, 60);
    JRemOfMultiple(m);
  }

  /** A remainder by a day's minutes keeps the remainder by an hour's. */
  lemma JRemOfMultiple(m: int)
    ensures JRem(JRem(m, 1440), 60) == JRem(m, 60)
  {
    JDivRem(m, 1440);
    JDivRem(m, 60);
    JDivRem(JRem(m, 1440), 60);
    var n := if m >= 0 then m else -m;
    ModOfModDay(n);
    if m < 0 {
      assert JRem(m, 1440) == -(n % 1440);
    }
  }

  /** For a non-negative count, the minutes past the hour survive taking the minutes past the day. */
  lemma ModOfModDay(n: nat)
    ensures (n % 1440) % 60 == n % 60
  {
    var q := n / 1440;
    var r := n % 1440;
    assert n == 60 * (24 * q + r / 60) + r % 60;
  }
}
