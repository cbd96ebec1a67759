// The registration screen: the order of its checks on a new login and
// password, the map of known logins it reads, and the line `addNewUser`
// appends to the users' login file.

module Register {
  import opened JavaText
  import opened JavaNumbers
  import opened OurCoaches
  import Login

  /** The map `loadLoginData` reads: every three-field line puts its login with its password. */
  function RegisterData(lines: seq<string>): map<string, string>
  {
    if |lines| == 0 then map[]
    else
      var parts := Split(lines[|lines| - 1], ';');
      if |parts| == 3 then RegisterData(lines[..|lines| - 1])[parts[1] := parts[2]]
      else RegisterData(lines[..|lines| - 1])
  }

  /** What the register button decides; only `Proceed` opens the data form. */
  datatype RegisterCheck =
    | EmptyField
    | SemicolonUsed
    | LoginTaken
    | SpaceUsed
    | Proceed

  function RegisterMessage(check: RegisterCheck): string
  {
    match check
    case EmptyField => "Fields cannot be empty."
    case SemicolonUsed => "Login or password cannot contain ';'."
    case LoginTaken => "Login already exists."
    case SpaceUsed => "Login or password cannot contain spaces."
    case Proceed => ""
  }

  /** The checks of the register button in their order; the first that fails decides. */
  function RegistrationCheck(login: string, password: string, loginData: map<string, string>): (r: RegisterCheck)
    ensures r == EmptyField <==> login == "" || password == ""
    ensures r == SemicolonUsed <==> login != "" && password != "" && (';' in login || ';' in password)
    ensures r == LoginTaken <==> login != "" && password != "" && ';' !in login && ';' !in password && login in loginData
    ensures r == Proceed <==>
      && login != "" && password != ""
      && ';' !in login && ';' !in password
      && login !in loginData
      && ' ' !in login && ' ' !in password
  {
    ContainsChar(login, ';');
    ContainsChar(password, ';');
    ContainsChar(login, ' ');
    ContainsChar(password, ' ');
    if login == "" || password == "" then EmptyField
    else if Contains(login, ";") || Contains(password, ";") then SemicolonUsed
    else if login in loginData then LoginTaken
    else if Contains(login, " ") || Contains(password, " ") then SpaceUsed
    else Proceed
  }

  /** `s.contains(c)` for a one-character string is membership of the character. */
  lemma ContainsChar(s: string, c: char)
    ensures Contains(s, [c]) <==> c in s
  {
    ContainsIff(s, [c]);
    if c in s {
      var q :| 0 <= q < |s| && s[q] == c;
      assert s[q..q + 1] == [c];
      assert OccursAt(s, [c], q);
    }
    if Contains(s, [c]) {
      var q :| OccursAt(s, [c], q);
      assert s[q] == s[q..q + 1][0];
    }
  }

  /** The line `addNewUser` appends to the users' login file. */
  function NewUserLine(uniqueID: string, login: string, password: string): string
  {
    uniqueID + ";" + login + ";" + password
  }

  /**
   * The registration screen's map of logins to passwords. The source keeps
   * it in a static field that `addNewUser` also updates; here it is a field
   * of one object shared by the registration and data screens.
   */
  class RegisterScreen {
    var loginData: map<string, string>

    constructor(loginFile: Option<seq<string>>)
      ensures loginData == RegisterData(LinesOf(loginFile))
    {
      loginData := map[];
      new;
      LoadLoginData(loginFile);
    }

    /** `loadLoginData`: a missing file leaves the map empty. */
    method LoadLoginData(file: Option<seq<string>>)
      modifies this
      ensures loginData == RegisterData(LinesOf(file))
    {
      var lines := LinesOf(file);
      loginData := map[];
      var i := 0;
      while i < |lines|
        invariant 0 <= i <= |lines|
        invariant loginData == RegisterData(lines[..i])
      {
        assert lines[..i + 1][..i] == lines[..i];
        var parts := Split(lines[i], ';');
        if |parts| == 3 {
          loginData := loginData[parts[1] := parts[2]];
        }
        i := i + 1;
      }
      assert lines[..i] == lines;
    }

    /** The register button's checks against the map this screen read. */
    function CheckRegistration(login: string, password: string): (r: RegisterCheck)
      reads this
      ensures r == Proceed ==> login !in loginData
    {
      RegistrationCheck(login, password, loginData)
    }

    /**
     * `addNewUser`: appends `id;login;password` to the users' login file (a
     * missing file is created) and puts the login in the map. The random id
     * is a parameter.
     */
    method AddNewUser(uniqueID: string, login: string, password: string, loginFile: Option<seq<string>>)
      returns (uuid: string, written: seq<string>)
      modifies this
      ensures uuid == uniqueID
      ensures written == LinesOf(loginFile) + [NewUserLine(uniqueID, login, password)]
      ensures loginData == old(loginData)[login := password]
    {
      written := LinesOf(loginFile) + [uniqueID + ";" + login + ";" + password];
      loginData := loginData[login := password];
      uuid := uniqueID;
    }
  }

  // ----- properties -----

  /** The registration screen and the login screen read the same logins with the same passwords. */
  lemma {:induction false} RegisterDataAgreesWithLogin(lines: seq<string>)
    ensures RegisterData(lines).Keys == Login.LoginData(lines).Keys
    ensures forall login :: login in RegisterData(lines) ==> RegisterData(lines)[login] == Login.LoginData(lines)[login].password
  {
    if |lines| > 0 {
      RegisterDataAgreesWithLogin(lines[..|lines| - 1]);
    }
  }

  /**
   * Reading the file back after `addNewUser` gives the map the screen holds
   * in memory, provided the fields hold no `;` and the password is not empty,
   * as a passed check ensures.
   */
  lemma ReloadAfterAdd(lines: seq<string>, uniqueID: string, login: string, password: string)
    requires ';' !in uniqueID && ';' !in login && ';' !in password && password != ""
    ensures RegisterData(lines + [NewUserLine(uniqueID, login, password)]) == RegisterData(lines)[login := password]
  {
    var all := lines + [NewUserLine(uniqueID, login, password)];
    assert all[..|all| - 1] == lines;
    NewUserLineFields(uniqueID, login, password);
  }

  /** The new line splits into its three fields. */
  lemma NewUserLineFields(uniqueID: string, login: string, password: string)
    requires ';' !in uniqueID && ';' !in login && ';' !in password && password != ""
    ensures Split(NewUserLine(uniqueID, login, password), ';') == [uniqueID, login, password]
  {
    assert [uniqueID, login, password][1..] == [login, password] && [login, password][1..] == [password];
    assert Join([login, password], ';') == login + ";" + password;
    assert NewUserLine(uniqueID, login, password) == Join([uniqueID, login, password], ';');
    SplitOfJoin([uniqueID, login, password], ';');
  }

  /**
   * A login that passed the registration checks and was added logs in as that user with
   * the new id, unless the same credentials also belong to a coach, whose
   * check comes first.
   */
  lemma RegisteredUserLogsIn(lines: seq<string>, coachLines: seq<string>, uniqueID: string, login: string, password: string)
    requires RegistrationCheck(login, password, RegisterData(lines)) == Proceed
    requires ';' !in uniqueID
    ensures var users := Login.LoginData(lines + [NewUserLine(uniqueID, login, password)]);
      login in users && users[login] == Login.UserCredential(uniqueID, password)
    ensures var coaches := Login.CoachData(coachLines);
      !(login in coaches && coaches[login] == password) ==>
        Login.LoginOutcomeOf(lines + [NewUserLine(uniqueID, login, password)], coachLines, login, password)
          == Login.UserLoggedIn(uniqueID)
  {
    Login.AppendedCredential(lines, uniqueID, login, password);
  }
}
