// The login screen: the users' and the coaches' credential files read into
// maps, the two credential checks, and the coach-first login decision.

module Login {
  import opened JavaText
  import opened JavaNumbers
  import opened OurCoaches

  /** A user's stored id and password, keyed by login. */
  datatype UserCredential = UserCredential(uuid: string, password: string)

  /** A line `uuid;login;password` of the users' login file for this login. */
  predicate IsCredentialLine(line: string, login: string)
  {
    |Split(line, ';')| == 3 && Split(line, ';')[1] == login
  }

  /** A line `login;password` of the coaches' login file for this login. */
  predicate IsCoachCredentialLine(line: string, login: string)
  {
    |Split(line, ';')| == 2 && Split(line, ';')[0] == login
  }

  /** The users' map after reading the lines in order: a later line of a login overwrites an earlier one. */
  function LoginData(lines: seq<string>): map<string, UserCredential>
  {
    if |lines| == 0 then map[]
    else
      var parts := Split(lines[|lines| - 1], ';');
      if |parts| == 3 then LoginData(lines[..|lines| - 1])[parts[1] := UserCredential(parts[0], parts[2])]
      else LoginData(lines[..|lines| - 1])
  }

  /** The coaches' map after reading the lines in order. */
  function CoachData(lines: seq<string>): map<string, string>
  {
    if |lines| == 0 then map[]
    else
      var parts := Split(lines[|lines| - 1], ';');
      if |parts| == 2 then CoachData(lines[..|lines| - 1])[parts[0] := parts[1]]
      else CoachData(lines[..|lines| - 1])
  }

  /** Who a click on "login" logs in; the session ids are set from it. */
  datatype LoginOutcome =
    | CoachLoggedIn(coachID: string)
    | UserLoggedIn(uuid: string)
    | Invalid

  /** The message the screen shows for an outcome. */
  function LoginMessage(outcome: LoginOutcome): (m: string)
    ensures outcome.Invalid? <==> m == "Invalid login or password."
  {
    match outcome
    case CoachLoggedIn(_) => "Coach login successful!"
    case UserLoggedIn(_) => "Login successful!"
    case Invalid => "Invalid login or password."
  }

  /**
   * The login decision on the two maps: the coaches' map is asked first, so
   * credentials good for both log in the coach; a user logs in with the id
   * stored for the login; otherwise nobody is logged in.
   */
  function Decide(users: map<string, UserCredential>, coaches: map<string, string>, login: string, password: string): (r: LoginOutcome)
    ensures r.CoachLoggedIn? <==> login in coaches && coaches[login] == password
    ensures r.CoachLoggedIn? ==> r.coachID == login
    ensures r.UserLoggedIn? <==> !(login in coaches && coaches[login] == password) && login in users && users[login].password == password
    ensures r.UserLoggedIn? ==> login in users && r.uuid == users[login].uuid
  {
    if login in coaches && coaches[login] == password then CoachLoggedIn(login)
    else if login in users && users[login].password == password then UserLoggedIn(users[login].uuid)
    else Invalid
  }

  /** The decision of a screen opened on these two files. */
  function LoginOutcomeOf(userLines: seq<string>, coachLines: seq<string>, login: string, password: string): LoginOutcome
  {
    Decide(LoginData(userLines), CoachData(coachLines), login, password)
  }

  class LoginScreen {
    var loginData: map<string, UserCredential>
    var coachData: map<string, string>

    /** The screen reads both files when it opens; a missing file leaves its map empty. */
    constructor(usersFile: Option<seq<string>>, coachesFile: Option<seq<string>>)
      ensures loginData == LoginData(LinesOf(usersFile))
      ensures coachData == CoachData(LinesOf(coachesFile))
    {
      loginData := map[];
      coachData := map[];
      new;
      LoadLoginData(usersFile);
      LoadCoachData(coachesFile);
    }

    /** `loadLoginData`: every three-field line puts its login with its id and password. */
    method LoadLoginData(file: Option<seq<string>>)
      modifies this
      ensures loginData == LoginData(LinesOf(file))
      ensures coachData == old(coachData)
    {
      var lines := LinesOf(file);
      loginData := map[];
      var i := 0;
      while i < |lines|
        invariant 0 <= i <= |lines|
        invariant loginData == LoginData(lines[..i])
        invariant coachData == old(coachData)
      {
        assert lines[..i + 1][..i] == lines[..i];
        var parts := Split(lines[i], ';');
        if |parts| == 3 {
          loginData := loginData[parts[1] := UserCredential(parts[0], parts[2])];
        }
        i := i + 1;
      }
      assert lines[..i] == lines;
    }

    /** `loadCoachData`: every two-field line puts its login with its password. */
    method LoadCoachData(file: Option<seq<string>>)
      modifies this
      ensures coachData == CoachData(LinesOf(file))
      ensures loginData == old(loginData)
    {
      var lines := LinesOf(file);
      coachData := map[];
      var i := 0;
      while i < |lines|
        invariant 0 <= i <= |lines|
        invariant coachData == CoachData(lines[..i])
        invariant loginData == old(loginData)
      {
        assert lines[..i + 1][..i] == lines[..i];
        var parts := Split(lines[i], ';');
        if |parts| == 2 {
          coachData := coachData[parts[0] := parts[1]];
        }
        i := i + 1;
      }
      assert lines[..i] == lines;
    }

    /** `validateUserLogin`: the login is known and its password is the one given; with no coach credentials it logs in the stored user. */
    predicate ValidateUserLogin(login: string, password: string)
      reads this
      ensures ValidateUserLogin(login, password) <==> login in loginData && loginData[login].password == password
      ensures ValidateUserLogin(login, password) <==> Decide(loginData, map[], login, password).UserLoggedIn?
      ensures ValidateUserLogin(login, password) ==> Decide(loginData, map[], login, password) == UserLoggedIn(loginData[login].uuid)
    {
      login in loginData && loginData[login].password == password
    }

    /** `validateCoachLogin`: the same check on the coaches' map; it logs the coach in whatever the users' map holds. */
    predicate ValidateCoachLogin(login: string, password: string)
      reads this
      ensures ValidateCoachLogin(login, password) <==> Decide(loginData, coachData, login, password) == CoachLoggedIn(login)
    {
      login in coachData && coachData[login] == password
    }

    /** The login button; the outcome sets `loggedInCoachID` or `loggedInUserUUID`. */
    method HandleLogin(login: string, password: string) returns (outcome: LoginOutcome)
      ensures outcome == Decide(loginData, coachData, login, password)
      ensures outcome.CoachLoggedIn? <==> ValidateCoachLogin(login, password)
      ensures outcome.UserLoggedIn? <==> !ValidateCoachLogin(login, password) && ValidateUserLogin(login, password)
    {
      if ValidateCoachLogin(login, password) {
        return CoachLoggedIn(login);
      } else if ValidateUserLogin(login, password) {
        return UserLoggedIn(loginData[login].uuid);
      }
      return Invalid;
    }
  }

  // ----- properties of the loaded maps -----

  /** A login is in the users' map exactly when some line of the file is a three-field line of it. */
  lemma {:induction false} LoginDataKeys(lines: seq<string>, login: string)
    ensures login in LoginData(lines) <==> exists k :: 0 <= k < |lines| && IsCredentialLine(lines[k], login)
  {
    if |lines| > 0 {
      var front := lines[..|lines| - 1];
      var last := lines[|lines| - 1];
      assert login in LoginData(lines) <==> login in LoginData(front) || IsCredentialLine(last, login);
      LoginDataKeys(front, login);
      if login in LoginData(lines) {
        if IsCredentialLine(last, login) {
          assert IsCredentialLine(lines[|lines| - 1], login);
        } else {
          var k :| 0 <= k < |front| && IsCredentialLine(front[k], login);
          assert lines[k] == front[k];
        }
      } else {
        forall k | 0 <= k < |lines|
          ensures !IsCredentialLine(lines[k], login)
        {
          if k < |front| {
            assert front[k] == lines[k];
          }
        }
      }
    }
  }

  /** The last three-field line of a login decides its id and password. */
  lemma {:induction false} LoginDataOfLastLine(lines: seq<string>, login: string, k: nat)
    requires k < |lines| && IsCredentialLine(lines[k], login)
    requires forall j :: k < j < |lines| ==> !IsCredentialLine(lines[j], login)
    ensures login in LoginData(lines)
    ensures LoginData(lines)[login] == UserCredential(Split(lines[k], ';')[0], Split(lines[k], ';')[2])
  {
    if k < |lines| - 1 {
      var front := lines[..|lines| - 1];
      assert front[k] == lines[k];
      LoginDataOfLastLine(front, login, k);
      assert !IsCredentialLine(lines[|lines| - 1], login);
    }
  }

  /** A coach's login is in the coaches' map exactly when some line of the file is a two-field line of it. */
  lemma {:induction false} CoachDataKeys(lines: seq<string>, login: string)
    ensures login in CoachData(lines) <==> exists k :: 0 <= k < |lines| && IsCoachCredentialLine(lines[k], login)
  {
    if |lines| > 0 {
      var front := lines[..|lines| - 1];
      var last := lines[|lines| - 1];
      assert login in CoachData(lines) <==> login in CoachData(front) || IsCoachCredentialLine(last, login);
      CoachDataKeys(front, login);
      if login in CoachData(lines) {
        if IsCoachCredentialLine(last, login) {
          assert IsCoachCredentialLine(lines[|lines| - 1], login);
        } else {
          var k :| 0 <= k < |front| && IsCoachCredentialLine(front[k], login);
          assert lines[k] == front[k];
        }
      } else {
        forall k | 0 <= k < |lines|
          ensures !IsCoachCredentialLine(lines[k], login)
        {
          if k < |front| {
            assert front[k] == lines[k];
          }
        }
      }
    }
  }

  /** The last two-field line of a coach's login decides the password. */
  lemma {:induction false} CoachDataOfLastLine(lines: seq<string>, login: string, k: nat)
    requires k < |lines| && IsCoachCredentialLine(lines[k], login)
    requires forall j :: k < j < |lines| ==> !IsCoachCredentialLine(lines[j], login)
    ensures login in CoachData(lines) && CoachData(lines)[login] == Split(lines[k], ';')[1]
  {
    if k < |lines| - 1 {
      var front := lines[..|lines| - 1];
      assert front[k] == lines[k];
      CoachDataOfLastLine(front, login, k);
      assert !IsCoachCredentialLine(lines[|lines| - 1], login);
    }
  }

  /** A line appended to the users' login file decides its login, whatever came before. */
  lemma AppendedCredential(lines: seq<string>, uuid: string, login: string, password: string)
    requires ';' !in uuid && ';' !in login && ';' !in password && password != ""
    ensures var l := LoginData(lines + [uuid + ";" + login + ";" + password]);
      login in l && l[login] == UserCredential(uuid, password)
  {
    var all := lines + [uuid + ";" + login + ";" + password];
    assert all[..|all| - 1] == lines;
    assert [uuid, login, password][1..] == [login, password] && [login, password][1..] == [password];
    assert Join([login, password], ';') == login + ";" + password;
    assert uuid + ";" + login + ";" + password == Join([uuid, login, password], ';');
    SplitOfJoin([uuid, login, password], ';');
  }

  /** A coach line appended to the coaches' login file logs that coach in, whatever either file held before. */
  lemma AppendedCoachWins(userLines: seq<string>, coachLines: seq<string>, login: string, password: string)
    requires ';' !in login && ';' !in password && password != ""
    ensures LoginOutcomeOf(userLines, coachLines + [login + ";" + password], login, password) == CoachLoggedIn(login)
  {
    var all := coachLines + [login + ";" + password];
    assert all[..|all| - 1] == coachLines;
    assert [login, password][1..] == [password];
    assert login + ";" + password == Join([login, password], ';');
    SplitOfJoin([login, password], ';');
  }
}
