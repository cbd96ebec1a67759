# Fitness Tracker in Dafny

A Dafny model of the logic of the Fitness Tracker, a Java Swing desktop
application. Users log in, register, enter their personal data, register
trainings, follow their weight and look at workout statistics. Coaches
accept or dismiss users' session requests and look at their students. All
data lives in `;`-separated text files: the users' and the coaches' login
files, `usersData.txt`, the weights file, the trainings file, the coaches'
students file and the session requests file.

The model leaves out the screens' widgets and keeps what they compute. Each
file is the list of its lines; `None` stands for a missing file. A screen
whose Java class keeps state in fields is a Dafny `class` with those fields,
and the methods that fill them are loops proved against a function over the
lines. A routine that rewrites a file returns the lines it writes.

Modules, one per source class or screen:

- `Activities`: the `Activity` record and its running, cycling and
  rope-jumping kinds as one datatype. `ActivityObject` is the mutable object
  with its setters and `calculateDuration`. `GetAllInfo` is the fixed-label
  summary each kind writes, and is also how a training is stored.
- `StandardUsers`: the `StandardUser` class, the BMI, and the statistics
  over its activity objects. Averages and rates are `JDouble` values that
  can be an infinity or NaN, as in Java. `calculateAverageActivityTime`
  rewrites every stored duration, even when an object is listed twice.
- `WorkoutStats`: the statistics screen. It loads the user's line of the
  trainings file, builds the workout list and tracks the most intense
  workout, with a crash outcome for the uncaught exceptions. It also has the
  screen's sums, averages, extremes and calories by type.
- `WorkoutRoundTrip`: each kind's summary is parsed back by the statistics
  screen's `extractField` and `parseActivity` into the workout it describes.
- `RegisterTraining`: the MET table and calorie estimate, the activity a
  submission builds, and the line edit that stores the summary. Lemmas tie
  a first saved training to what the statistics screen loads.
- `AboutMe`: the profile screen. It reads the user's record, rewrites it
  after an edit, classifies the BMI and adds a weight once per date.
- `WeightHistory`: the history screen's reading of `uuid;date~weight;...`
  lines. It is tied to what the profile screen writes.
- `OurCoaches`: the rules for requesting a session with a coach.
- `SessionRequests`: the coach's pending requests, and accepting or
  dismissing one. Both rewrite the students and requests files.
- `MyStudents`: the coach's students and their BMI.
- `Login`, `Register`, `AskForData`, `MainScreen`, `Workouts`:
  - login with coaches checked first;
  - the registration checks and the new login line;
  - the personal-data form and its record;
  - the welcome text with the account's age in days, hours and minutes;
  - the weight lookup of the workouts screen.
- `JavaText`, `JavaNumbers` and `Reductions` state the `java.lang`
  behaviour the code relies on:
  - `split(";")` drops trailing empty fields;
  - `indexOf`, `trim`, `replace`, `equalsIgnoreCase`;
  - `Integer.parseInt` and `Integer.toString`;
  - 32-bit wrap-around, and `/` and `%` that truncate toward zero;
  - `(int)` casts of doubles, and division by zero giving an infinity or NaN;
  - `Double.compare`;
  - stream `max` and `min`, which keep the first of equal elements.

Assumptions and inputs:

- `Double.toString` and `Double.parseDouble` are a `Numerals` value
  `nf = (show, read)` passed to every member that writes or reads a
  double.
  - Dafny has no model of binary floating point, so these two are not
    defined.
  - Nothing is assumed of `nf` as a whole. A lemma that writes a number
    and reads it back assumes, for that number only, `RoundTrips(nf, x)`:
    reading the text of `x` gives `x`, and that text is a non-empty run of
    digits, `.`, `-` and `E`, so it holds no `;`, `~`, space or label text.
    `NumbersRoundTrip(nf, a)` asks the same of every number in the summary
    of the activity `a`. `ReadsInteger(nf, n)` says that `parseDouble` reads
    the decimal text of the integer `n` as `n`.
  - Java's library keeps these promises for every double. The model takes
    them as hypotheses of the lemmas that need them and does not prove them.
- Doubles are Dafny `real`s.
- Instants are whole seconds, and dates are parameters.
- The current time, random UUIDs and the logged-in user or coach are
  parameters. These are `LoginGUI`'s static session fields.

## Model

| member | source | states |
|---|---|---|
| Login.LoginMessage | src/main/java/gui/LoginGUI.java:133-156 | the invalid-credentials message is shown exactly for the `Invalid` outcome |
| Login.Decide | src/main/java/gui/LoginGUI.java:128-157 | a coach logs in exactly when the coaches' map holds the login with that password, and then with the login as id; a user logs in exactly when the coach check fails and the users' map holds the login with that password, and then with the stored id |
| Login.LoginScreen.constructor | src/main/java/gui/LoginGUI.java:29-31 | the screen opens with both maps read from their files, a missing file giving an empty map |
| Login.LoginScreen.LoadLoginData | src/main/java/gui/LoginGUI.java:184-201 | the users' map is the fold of the file's three-field lines, the coaches' map is untouched |
| Login.LoginScreen.LoadCoachData | src/main/java/gui/LoginGUI.java:208-224 | the coaches' map is the fold of the file's two-field lines, the users' map is untouched |
| Login.LoginScreen.ValidateUserLogin | src/main/java/gui/LoginGUI.java:233-239 | the user check holds exactly when the login is a key of the users' map with the given password; equivalently, with no coach credentials, the login decision logs a user in, and then it is the user of the id stored for the login |
| Login.LoginScreen.ValidateCoachLogin | src/main/java/gui/LoginGUI.java:248-250 | the coach check holds exactly when the login decision logs in the coach of that login, whatever the users' map holds |
| Login.LoginScreen.HandleLogin | src/main/java/gui/LoginGUI.java:128-157 | the outcome is the coach-first decision on the loaded maps: a coach exactly when `validateCoachLogin` holds, a user exactly when only `validateUserLogin` holds |
| Login.LoginDataKeys | src/main/java/gui/LoginGUI.java:184-201 | a login is a key of the users' map exactly when some line of the file is a three-field line of it |
| Login.LoginDataOfLastLine | src/main/java/gui/LoginGUI.java:190-197 | the last three-field line of a login decides its stored id and password |
| Login.CoachDataKeys | src/main/java/gui/LoginGUI.java:208-224 | a login is a key of the coaches' map exactly when some line is a two-field line of it |
| Login.CoachDataOfLastLine | src/main/java/gui/LoginGUI.java:213-219 | the last two-field line of a coach's login decides the password |
| Login.AppendedCredential | src/main/java/gui/LoginGUI.java:190-196 | a `uuid;login;password` line appended to the file, free of `;`, maps the login to that id and password whatever came before |
| Register.RegistrationCheck | src/main/java/gui/RegisterGUI.java:115-145 | the first failing check decides, in the screen's order: empty field, then `;`, then a taken login, then a space; registration goes ahead exactly when all four pass |
| Register.ContainsChar | src/main/java/gui/RegisterGUI.java:125 | `contains` of a one-character string is membership of that character |
| Register.RegisterScreen.constructor | src/main/java/gui/RegisterGUI.java:22-24 | the screen opens with the login map read from the users' login file |
| Register.RegisterScreen.LoadLoginData | src/main/java/gui/RegisterGUI.java:186-203 | the map is the fold of the file's three-field lines, login to password |
| Register.RegisterScreen.CheckRegistration | src/main/java/gui/RegisterGUI.java:130 | a login that passes the registration checks is not yet in the screen's map |
| Register.RegisterScreen.AddNewUser | src/main/java/gui/RegisterGUI.java:212-230 | the file gains exactly the line `id;login;password` at its end, the map gains the login with its password, and the given id is returned |
| Register.RegisterDataAgreesWithLogin | src/main/java/gui/RegisterGUI.java:186-203 | the registration screen and the login screen read the same logins from the same file, with the same passwords |
| Register.ReloadAfterAdd | src/main/java/gui/RegisterGUI.java:212-230 | reading the file back after `addNewUser` gives the in-memory map |
| Register.NewUserLineFields | src/main/java/gui/RegisterGUI.java:218 | the appended line splits back into its three fields |
| Register.RegisteredUserLogsIn | src/main/java/gui/RegisterGUI.java:212-230 | a login that passed the registration checks and was added logs in with the new id, unless a coach has the same credentials |
| Login.AppendedCoachWins | src/main/java/gui/LoginGUI.java:128-157 | a `login;password` line appended to the coaches' file, free of `;`, logs that coach in whatever either file held before, even over a user with the same credentials |
| AskForData.SubmitOutcomeOf | src/main/java/gui/AskForDataGUI.java:143-220 | a weight or height that does not parse gives the numeric message first; otherwise a missing name, date of birth or gender is refused, then a date of birth not before today; the account is created exactly when every check passes, with the new id and the `uuid;name;weight;height;age;gender;created;created` record |
| AskForData.AskForDataScreen.constructor | src/main/java/gui/AskForDataGUI.java:38-40 | the form keeps the login and password it was opened with, and no creation time yet |
| AskForData.AskForDataScreen.HandleSubmit | src/main/java/gui/AskForDataGUI.java:143-220 | the outcome is the form's decision; on success the login file gains the new user's line, usersData.txt gains the record, the registration map gains the login and the creation time is set; on refusal no file, map or field changes |
| AskForData.AgeOfBirthday | src/main/java/gui/AskForDataGUI.java:177 | `Period.between(dob, today).getYears()` for a date of birth before today is the difference of the years, one less before the birthday, and fits an `int` |
| AskForData.DivOfParts | src/main/java/gui/AskForDataGUI.java:177 | dividing a whole number of years and spare months by twelve gives the years |
| AskForData.UserDataLineIsJoin | src/main/java/gui/AskForDataGUI.java:185-187 | the record is its eight fields joined by `;` |
| AskForData.RecordSplits | src/main/java/gui/AskForDataGUI.java:185-187 | with `;`-free fields the record splits back into its eight fields and is a profile line of the new id, for numbers whose text reads back |
| AskForData.RecordProfile | src/main/java/gui/AskForDataGUI.java:185-187 | the profile screen reads the record's fields back as the submitted name, weight, height, age, gender and creation date, for numbers whose text reads back |
| AskForData.IntegerTrimFixed | src/main/java/gui/AskForDataGUI.java:186 | an integer's decimal text is unchanged by `trim` |
| AskForData.SubmittedRecordReadsBack | src/main/java/gui/AboutMeGUI.java:568-609 | after a successful submission for an id with no earlier record, the profile screen loads exactly the submitted data, for numbers whose text reads back |
| AskForData.SubmittedUserGreeted | src/main/java/gui/MainGUI.java:268-303 | after a successful submission for an id with no earlier record, the main screen reads the submitted name and creation date, for numbers whose text reads back |
| AboutMe.FindProfileFound | src/main/java/gui/AboutMeGUI.java:577-583 | the profile loader finds a record exactly when some line has at least eight fields and the user's id first |
| AboutMe.FindProfileOfFirst | src/main/java/gui/AboutMeGUI.java:583-603 | the first matching line decides the profile: the loop stops there, so later lines of the same id are never read |
| AboutMe.UserRecordReadsBack | src/main/java/gui/AboutMeGUI.java:512-514 | a record with `;`-free text fields splits into its eight fields, is a profile line of its id, and reads back as the profile it was written from, for numbers whose text reads back |
| AboutMe.UpdatedUserData | src/main/java/gui/AboutMeGUI.java:498-520 | the rewritten file has one line per line read, each line either kept or, when it is the user's eight-field line, replaced by the new record |
| AboutMe.UpdateUserLine | src/main/java/gui/AboutMeGUI.java:499-519 | one line of the rewrite: empty, short and other users' lines are kept, the user's line becomes the record, and the flag says whether the line was the user's |
| AboutMe.UpdateUserDataInFile | src/main/java/gui/AboutMeGUI.java:484-535 | a missing file writes nothing; otherwise the written lines are the rewrite of every line and `found` holds exactly when some line was the user's |
| AboutMe.UpdateOfUnknownUuid | src/main/java/gui/AboutMeGUI.java:522-524 | when no line is the user's the file is written back unchanged |
| AboutMe.UpdateIdempotent | src/main/java/gui/AboutMeGUI.java:510-516 | saving the same record twice leaves the file as one save did |
| AboutMe.LoadAfterUpdate | src/main/java/gui/AboutMeGUI.java:568-609 | after saving a storable profile for a user who has a record, loading the file gives exactly that profile, for numbers whose text reads back |
| AboutMe.ShownBmi | src/main/java/gui/AboutMeGUI.java:312-316 | a BMI is shown exactly when the height is positive, and it is the weight divided by the square of the height in metres |
| AboutMe.BmiCategoryBands | src/main/java/gui/AboutMeGUI.java:548-560 | the four labels cover the bands below 18.5, from 18.5 below 25, from 25 below 30, and from 30 up |
| AboutMe.BmiCategoryMonotonic | src/main/java/gui/AboutMeGUI.java:548-560 | a larger BMI never gets a lower category |
| AboutMe.UpdatedWeightsAll | src/main/java/gui/AboutMeGUI.java:645-680 | the weights rewrite has one line per line read, each the per-line rewrite of the original |
| AboutMe.RebuildUserLine | src/main/java/gui/AboutMeGUI.java:661-676 | the rebuilt user line is the id followed by every old field, with the new entry appended exactly when no field starts with `date~` |
| AboutMe.UpdateWeightsLine | src/main/java/gui/AboutMeGUI.java:646-679 | blank lines, lines of fewer than two fields and other users' lines are kept; the user's line is rebuilt; the flag says whether it was the user's |
| AboutMe.UpdateWeightsDataInFile | src/main/java/gui/AboutMeGUI.java:618-694 | the written file is every line rewritten, plus a new `uuid;date~weight` line when no line was the user's; a missing file reads as empty |
| AboutMe.RebuiltAsJoin | src/main/java/gui/AboutMeGUI.java:661-676 | the rebuilt line is the old fields, plus the new entry when the date is not saved, joined by `;` |
| AboutMe.UpdatedWeightsLineFields | src/main/java/gui/AboutMeGUI.java:661-676 | with a `;`-free entry the rebuilt line splits into the old fields plus, when the date is new, the entry, and is still the user's line |
| AboutMe.WeightsLineIdempotent | src/main/java/gui/AboutMeGUI.java:665-675 | once an entry for the date is on the line, a second rewrite for that date, whatever the weight, changes nothing |
| AboutMe.WeightsAllIdempotent | src/main/java/gui/AboutMeGUI.java:645-680 | the same for every line of the file, and the rewrite keeps whether the user has a line |
| AboutMe.NewWeightsLineKept | src/main/java/gui/AboutMeGUI.java:683-686 | the line added for a new user is the user's line and already holds the date |
| AboutMe.UpdateWeightsIdempotent | src/main/java/gui/AboutMeGUI.java:618-694 | saving a second weight for the same date and time leaves the weights file as the first save wrote it: the first weight of a date wins, for numbers whose text reads back |
| AboutMe.AboutMeScreen.constructor | src/main/java/gui/AboutMeGUI.java:36-38 | the screen takes the logged-in user's id and starts from the fields' defaults |
| AboutMe.AboutMeScreen.LoadUserDataFromFile | src/main/java/gui/AboutMeGUI.java:568-609 | with a record found the shown profile is the one read from the first matching line; with no file or no record nothing changes |
| AboutMe.AboutMeScreen.Show | src/main/java/gui/AboutMeGUI.java:584-602 | the shown fields become the given profile and the id is kept |
| AboutMe.AboutMeScreen.ReadProfile | src/main/java/gui/AboutMeGUI.java:584-602 | the profile of an eight-field line, with 0 for a weight, height or age that does not parse |
| AboutMe.AboutMeScreen.SaveEdits | src/main/java/gui/AboutMeGUI.java:408-463 | the name becomes the trimmed text, the weight and height the parsed text or the old value, the weight date the current time; usersData.txt is rewritten with the new record and weightsData.txt with the new weight |
| MainScreen.MainScreenState.constructor | src/main/java/gui/MainGUI.java:30-33 | the screen opens with the name and creation date of the user's first eight-field line, and with neither when no user is logged in, the file is missing or no line matches |
| MainScreen.MainScreenState.LoadUserDataFromFile | src/main/java/gui/MainGUI.java:268-303 | with a logged-in user and a matching line the name and creation date are fields 1 and 6 of the first such line; otherwise both fields are left as they were |
| MainScreen.MainScreenState.NameText | src/main/java/gui/MainGUI.java:200 | the welcome name is never empty, and is "Guest" exactly when the name is missing, empty or is itself "Guest" |
| MainScreen.MainScreenState.DateText | src/main/java/gui/MainGUI.java:201-203 | the welcome date is never empty, and is "some time" exactly when the date is missing, empty or is itself "some time" |
| MainScreen.MainScreenState.WhichIsLine | src/main/java/gui/MainGUI.java:206-227 | the duration line is present exactly when there is a non-empty creation date that parses, and is then the days, hours and minutes text of the elapsed minutes |
| MainScreen.AgreesWithProfile | src/main/java/gui/MainGUI.java:283-298 | the main screen finds a user exactly when the profile screen does, and shows that record's name and creation date |
| MainScreen.UserDataOfPrefix | src/main/java/gui/MainGUI.java:283-298 | the first line of the user decides the name and creation date shown; later lines do not change them |
| MainScreen.JRemOfMultiple | src/main/java/gui/MainGUI.java:218-219 | the minutes past the hour taken from the minutes past the day are the minutes past the hour of the whole count, for a negative count as well |
| MainScreen.Decomposition | src/main/java/gui/MainGUI.java:216-219 | with Java's truncating `/` and `%`, days, hours and minutes add back up to the elapsed minutes, hours and minutes stay within one unit, and none is negative for a non-negative count |
| MyStudents.CalculateBmi | src/main/java/gui/coachgui/MyStudentsGUI.java:155-157 | for a non-zero height the result is finite and times the squared height gives the weight; a zero height gives no finite number |
| MyStudents.GetCoachStudents | src/main/java/gui/coachgui/MyStudentsGUI.java:93-146 | the rows are those of the users' data lines of the ids listed on the coach's line, in file order; a missing file reads as empty, and a listed student's line that is too short or does not parse ends the reading |
| MyStudents.ReadStudentRows | src/main/java/gui/coachgui/MyStudentsGUI.java:117-143 | the loop over usersData.txt computes the rows of the listed ids, or the crash |
| MyStudents.ReadCoachStudentUuids | src/main/java/gui/coachgui/MyStudentsGUI.java:101-111 | the loop over coachesStudents.txt returns the later fields of the first line that starts with the coach's id, and nothing when no line does |
| MyStudents.ReadLine | src/main/java/gui/coachgui/MyStudentsGUI.java:120-139 | one users' data line is skipped when its id is not listed, read into a row with the BMI otherwise, and a crash when it has no fields, too few fields or a number that does not parse |
| MyStudents.CrashStays | src/main/java/gui/coachgui/MyStudentsGUI.java:117-143 | once a line crashes the reading, no later line restores it |
| MyStudents.StudentRowsSucceed | src/main/java/gui/coachgui/MyStudentsGUI.java:117-143 | the table is produced exactly when no line of the file crashes the reading |
| MyStudents.StudentRowsOfListed | src/main/java/gui/coachgui/MyStudentsGUI.java:121 | every row comes from a line whose id is listed for the coach |
| MyStudents.StudentRowOfEveryListed | src/main/java/gui/coachgui/MyStudentsGUI.java:121-138 | every line of a listed id gives a row of the table |
| MyStudents.BmiAgreesWithProfile | src/main/java/gui/coachgui/MyStudentsGUI.java:124-128 | for a positive height the coach sees the BMI the student's profile screen shows |
| MyStudents.PrefixCoachReadsOtherLine | src/main/java/gui/coachgui/MyStudentsGUI.java:104 | with students file `c10;u2`, accepting `u1` for coach `c1` writes the line `c1;u1`, yet the students screen of `c1` lists `u2` |
| MyStudents.AcceptedStudentListed | src/main/java/gui/coachgui/SessionRequestsGUI.java:304-339 | with the coach's line matched by its id and `;`, a student whose `;id` occurs on no line of the coach is among the coach's listed students once accepted |
| MyStudents.StudentRowsOfNoCrash | src/main/java/gui/coachgui/MyStudentsGUI.java:117-143 | when no line crashes the reading, the table is produced |
| MyStudents.CrashingLine | src/main/java/gui/coachgui/MyStudentsGUI.java:117-143 | a single crashing line anywhere in the file ends the reading with no table |
| MyStudents.SubstringStudentNotListed | src/main/java/gui/coachgui/SessionRequestsGUI.java:315 | with students file `c1;u10`, accepting `u1` for coach `c1` leaves the file as it was, and `u1` is not among the coach's students |
| MyStudents.AcceptedStudentAlwaysListed | src/main/java/gui/coachgui/SessionRequestsGUI.java:304-328 | with the id compared field by field, an accepted student is among the coach's listed students whatever the file held |
| SessionRequests.GetCoachRequests | src/main/java/gui/coachgui/SessionRequestsGUI.java:130-177 | the rows are those of the users' data lines with six fields whose id is on the coach's first `coachID;` line of the requests file, in file order; a missing file reads as empty |
| SessionRequests.ReadCoachLineUuids | src/main/java/gui/coachgui/SessionRequestsGUI.java:138-148 | the loop returns the fields after the id on the coach's first line, nothing when there is none |
| SessionRequests.ReadRequestRows | src/main/java/gui/coachgui/SessionRequestsGUI.java:154-171 | the loop over usersData.txt computes the request rows of the listed ids |
| SessionRequests.CollectLaterFields | src/main/java/gui/coachgui/SessionRequestsGUI.java:143-145 | the loop from index 1 collects every field after the first |
| SessionRequests.MovedAll | src/main/java/gui/coachgui/SessionRequestsGUI.java:312-320 | one output line per line read, each the coach's line with `;uuid` appended when missing, or the line itself |
| SessionRequests.MoveStudentToCoach | src/main/java/gui/coachgui/SessionRequestsGUI.java:304-339 | the written students file is every line moved, plus `coachID;uuid` when no line was the coach's; a missing file reads as empty |
| SessionRequests.RemovedAll | src/main/java/gui/coachgui/SessionRequestsGUI.java:354-366 | one output line per line read, each coach line rebuilt without the id and every other line kept |
| SessionRequests.RemoveRequest | src/main/java/gui/coachgui/SessionRequestsGUI.java:347-380 | the written requests file is every line with the user's id removed from the coach's lines; a missing file reads as empty |
| SessionRequests.RebuildWithout | src/main/java/gui/coachgui/SessionRequestsGUI.java:356-363 | the rebuilt line is the coach's id followed by `;` and each later field other than the user's id, in order |
| SessionRequests.SessionRequestsScreen.constructor | src/main/java/gui/coachgui/SessionRequestsGUI.java:30-73 | the table opens with the coach's request rows |
| SessionRequests.SessionRequestsScreen.FinishEditing | src/main/java/gui/coachgui/SessionRequestsGUI.java:289-294 | the edited row leaves the table and the other rows keep their order |
| SessionRequests.SessionRequestsScreen.HandleAcceptRequest | src/main/java/gui/coachgui/SessionRequestsGUI.java:271-275 | the row's user is added to the coach's students, removed from the coach's requests, and the row leaves the table |
| SessionRequests.SessionRequestsScreen.HandleDismissRequest | src/main/java/gui/coachgui/SessionRequestsGUI.java:281-284 | the row's user is removed from the coach's requests, the students file is not touched, and the row leaves the table |
| SessionRequests.RowsOfRequesters | src/main/java/gui/coachgui/SessionRequestsGUI.java:158-170 | every row comes from a six-field users' data line of a listed id, and carries that id |
| SessionRequests.RowOfEveryRequester | src/main/java/gui/coachgui/SessionRequestsGUI.java:158-170 | every six-field line of a listed id gives a row |
| SessionRequests.CoachLineUuidsOfFirst | src/main/java/gui/coachgui/SessionRequestsGUI.java:140-147 | the first coach line decides the listed ids; later coach lines are never read |
| SessionRequests.RequestReachesCoach | src/main/java/gui/OurCoachesGUI.java:298-395 | a request the user sent puts the user's id among those the coach's request screen lists |
| SessionRequests.RequestShownToCoach | src/main/java/gui/coachgui/SessionRequestsGUI.java:130-177 | after a sent request, the user's six-field data line gives a row on the coach's request screen |
| SessionRequests.MovedLineOfCoach | src/main/java/gui/coachgui/SessionRequestsGUI.java:313-318 | a moved line is the coach's exactly when the original was, and the coach's line then holds `;uuid` |
| SessionRequests.MovedEnrols | src/main/java/gui/coachgui/SessionRequestsGUI.java:304-339 | after the move the coach has a line, and every coach line holds `;uuid` |
| SessionRequests.MoveIdempotent | src/main/java/gui/coachgui/SessionRequestsGUI.java:304-339 | accepting the same student twice writes the file the first acceptance wrote |
| SessionRequests.MovedStudentsShape | src/main/java/gui/coachgui/SessionRequestsGUI.java:304-339 | the file grows by one line exactly when the coach had none, that line being `coachID;uuid`; other lines are unchanged and coach lines gain at most `;uuid` |
| SessionRequests.WithoutMembers | src/main/java/gui/coachgui/SessionRequestsGUI.java:358-362 | the kept fields are exactly the fields other than the user's id |
| SessionRequests.RemovedLineFields | src/main/java/gui/coachgui/SessionRequestsGUI.java:355-364 | the rebuilt coach line is the coach's id and the kept fields joined by `;`, and no longer lists the user |
| SessionRequests.RemovedClears | src/main/java/gui/coachgui/SessionRequestsGUI.java:347-380 | after removal no coach line of the file lists the user |
| SessionRequests.RemovedNotRequested | src/main/java/gui/coachgui/SessionRequestsGUI.java:347-380 | after removal the coach's request screen no longer lists the user |
| SessionRequests.AcceptMakesStudent | src/main/java/gui/coachgui/SessionRequestsGUI.java:271-275 | after acceptance the user is on a coach line of the students file, off the coach's requests, and a new request to that coach is refused as already a student |
| OurCoaches.RequestedAll | src/main/java/gui/OurCoachesGUI.java:338-347 | one output line per line read: each coach line not holding the user's id gets `;uuid` appended, every other line is kept |
| OurCoaches.HandleRequestClick | src/main/java/gui/OurCoachesGUI.java:298-395 | a user some coach line of the students file mentions is refused as a student; else one a coach line of the requests file mentions is refused as already requesting; else the requests file is written with the user appended to the coach's lines, or a new `coachID;uuid` line when the coach had none; a missing file reads as empty |
| OurCoaches.FindMention | src/main/java/gui/OurCoachesGUI.java:304-313 | the search finds exactly whether some line of the coach holds the user's id |
| OurCoaches.ReadRequests | src/main/java/gui/OurCoachesGUI.java:336-347 | the loop returns every line with the user appended to the coach's lines, and whether some coach line already held the id |
| OurCoaches.FindCoachLine | src/main/java/gui/OurCoachesGUI.java:365-373 | the search finds exactly whether some line belongs to the coach |
| OurCoaches.MentionsAt | src/main/java/gui/OurCoachesGUI.java:307-311 | a coach line anywhere in the file that holds the id counts as a mention |
| OurCoaches.RequestedKeepsCoachLines | src/main/java/gui/OurCoachesGUI.java:364-377 | appending to the coach's lines keeps whether the coach has a line, so the later search sees the same answer on the rewritten lines |
| OurCoaches.RequestSentShape | src/main/java/gui/OurCoachesGUI.java:336-377 | a sent request keeps the number of lines, or adds `coachID;uuid` at the end when the coach had none, and appends `;uuid` to exactly the coach's lines |
| OurCoaches.SecondRequestRejected | src/main/java/gui/OurCoachesGUI.java:357-362 | after a sent request the same request to the same coach is refused as already requested |
| OurCoaches.SentMentionsExtended | src/main/java/gui/OurCoachesGUI.java:343 | appending to an existing coach line makes the requests file mention the user |
| OurCoaches.SentMentionsAdded | src/main/java/gui/OurCoachesGUI.java:374-377 | the added `coachID;uuid` line makes the requests file mention the user |
| WeightHistory.EntryOf | src/main/java/gui/WeightHistoryGUI.java:310-323 | a field yields an entry only when it holds `~` and splits on it into two parts, and the field then starts with the entry's date and `~` |
| WeightHistory.WeightHistoryScreen.constructor | src/main/java/gui/WeightHistoryGUI.java:25-33 | the screen takes the logged-in user's id and starts with no entries |
| WeightHistory.WeightHistoryScreen.LoadWeightDataFromFile | src/main/java/gui/WeightHistoryGUI.java:288-329 | the entries gain those of every line of the user, in file order; a missing file adds none |
| WeightHistory.WeightHistoryScreen.AddLineEntries | src/main/java/gui/WeightHistoryGUI.java:298-324 | one line adds the entries of its fields after the id when it is a non-blank line of at least two fields of the user, and nothing otherwise |
| WeightHistory.WeightHistoryScreen.AddFieldEntry | src/main/java/gui/WeightHistoryGUI.java:310-322 | one field adds its entry, with weight 0 when the number does not parse, or nothing |
| WeightHistory.FileEntriesAppend | src/main/java/gui/WeightHistoryGUI.java:297-325 | the history of two files' lines read one after the other is the two histories in that order |
| WeightHistory.FileEntriesOfOthers | src/main/java/gui/WeightHistoryGUI.java:303-306 | a file with no line of the user gives an empty history |
| WeightHistory.EntryOfText | src/main/java/gui/AboutMeGUI.java:674 | the `date~weight` field the profile screen writes reads back as that date and weight, for numbers whose text reads back |
| WeightHistory.FieldEntriesDated | src/main/java/gui/WeightHistoryGUI.java:309-323 | every entry's date comes from a field that starts with that date and `~` |
| WeightHistory.LineEntriesAfterUpdate | src/main/java/gui/AboutMeGUI.java:661-676 | the user's rebuilt line reads as its old entries, plus the new date and weight when the date was not saved, for numbers whose text reads back |
| WeightHistory.UpdatedWeightsAllOfOthers | src/main/java/gui/AboutMeGUI.java:677-679 | a rewrite of a file with no line of the user leaves every line unchanged |
| WeightHistory.UpdatedAroundLine | src/main/java/gui/AboutMeGUI.java:645-680 | with one line of the user, the rewrite changes only that line |
| WeightHistory.FileEntriesAroundLine | src/main/java/gui/WeightHistoryGUI.java:297-325 | with one line of the user, the history is that line's entries |
| WeightHistory.HistoryAfterSave | src/main/java/gui/AboutMeGUI.java:618-694 | for a user with one line, saving a weight adds it at the end of the history exactly when the date was not yet saved, for numbers whose text reads back |
| WeightHistory.NewLineEntries | src/main/java/gui/AboutMeGUI.java:683-686 | the line added for a new user reads as the one saved entry, for numbers whose text reads back |
| WeightHistory.HistoryAfterFirstSave | src/main/java/gui/AboutMeGUI.java:618-694 | for a user with no line, the first saved weight becomes the whole history, for numbers whose text reads back |
| RegisterTraining.GetMetValue | src/main/java/gui/RegisterTrainingGUI.java:316-344 | the MET is the training type's base value (7, 6, 12, or 1 for any other type) times the intensity's factor (0.8 low, 1.2 high, 1 otherwise), and is positive |
| RegisterTraining.MetIncreasesWithIntensity | src/main/java/gui/RegisterTrainingGUI.java:334-343 | for every training type low burns less than medium, medium less than high, and medium is the base value |
| RegisterTraining.MetTable | src/main/java/gui/RegisterTrainingGUI.java:30-32 | the table's values for the three known types, and 1 for an unknown one |
| RegisterTraining.CaloriesProportional | src/main/java/gui/RegisterTrainingGUI.java:353-355 | the estimate is MET times weight for an hour, nothing for no time, and additive in the duration |
| RegisterTraining.CalculateRepetitions | src/main/java/gui/RegisterTrainingGUI.java:364-368 | two jumps a second, 120 per minute, as long as the 32-bit products do not overflow |
| RegisterTraining.RepetitionsWrap | src/main/java/gui/RegisterTrainingGUI.java:366-367 | one minute past that bound the `int` arithmetic wraps to a negative count |
| RegisterTraining.Submit | src/main/java/gui/RegisterTrainingGUI.java:164-172 | a missing date is refused before anything else, then a duration that is not an integer is refused as not numeric |
| RegisterTraining.SubmittedActivity | src/main/java/gui/RegisterTrainingGUI.java:172-195 | a built activity starts on the chosen date, ends the entered minutes later, stores that duration, burns the MET table's estimate, is named after its kind, and is a running or cycling activity exactly for those training types |
| RegisterTraining.SubmittedRunningSpeed | src/main/java/gui/RegisterTrainingGUI.java:179-183 | a running activity stores the parsed distance and the distance per hour as its average speed |
| RegisterTraining.SubmittedCyclingSpeed | src/main/java/gui/RegisterTrainingGUI.java:184-189 | a cycling activity stores the parsed distance and the distance per hour plus 5 as its maximum speed |
| RegisterTraining.SubmittedRopeJumping | src/main/java/gui/RegisterTrainingGUI.java:190-194 | any other training type becomes a rope-jumping activity with the repetitions of the duration |
| RegisterTraining.NonFiniteSpeedOnlyAtZero | src/main/java/gui/RegisterTrainingGUI.java:181-186 | the speed is not a finite number exactly when a dated running or cycling form with a parsable distance has a zero duration, for distances that are real numbers (a typed `Infinity` is not modelled) |
| RegisterTraining.WithTrainingAll | src/main/java/gui/RegisterTrainingGUI.java:258-265 | one output line per line read: each of the user's lines gets `~` and the summary appended, every other line is kept |
| RegisterTraining.SaveTrainingToFile | src/main/java/gui/RegisterTrainingGUI.java:246-280 | the written file is every line with the summary appended to the user's lines, plus `uuid;summary` when the user had none |
| RegisterTraining.SavedTrainingShape | src/main/java/gui/RegisterTrainingGUI.java:246-280 | the file grows by one line exactly when the user had none; other users' lines are unchanged |
| RegisterTraining.SavedTrainingHasUserLine | src/main/java/gui/RegisterTrainingGUI.java:259-271 | after saving the user has a line in the file |
| RegisterTraining.LoadNewUserLine | src/main/java/gui/WorkoutStatsGUI.java:368-395 | the `uuid;summary` line is loaded as the one entry the summary parses to |
| RegisterTraining.WithTrainingAllOfOthers | src/main/java/gui/RegisterTrainingGUI.java:258-265 | without a line of the user every line is copied unchanged |
| RegisterTraining.LoadAfterFirstSave | src/main/java/gui/RegisterTrainingGUI.java:268-271 | for a new user, loading the saved file gives what the old file gave followed by the summary's entry |
| RegisterTraining.KindNameFreeOfSeparator | src/main/java/gui/RegisterTrainingGUI.java:183-194 | no kind name holds `;` or `~` |
| RegisterTraining.SubmitThenLoad | src/main/java/gui/RegisterTrainingGUI.java:161-280 | a first training registered through the form loads on the statistics screen as exactly the workout the form built, after whatever the file held before, for numbers whose text reads back |
| WorkoutStats.TagStart | src/main/java/gui/WorkoutStatsGUI.java:488-491 | `indexOf` of the start tag is -1 or a position where the whole tag fits inside the entry |
| WorkoutStats.FieldEnd | src/main/java/gui/WorkoutStatsGUI.java:494-497 | the end of the field lies between the field start and the end of the entry |
| WorkoutStats.ParseAll | src/main/java/gui/WorkoutStatsGUI.java:387-390 | every `~` entry of the line is parsed, one outcome per entry |
| WorkoutStats.AverageActivityTime | src/main/java/gui/WorkoutStatsGUI.java:511-516 | for a non-empty list the average times the count is the total duration; for an empty list it is 0 |
| WorkoutStats.AverageActivityCalories | src/main/java/gui/WorkoutStatsGUI.java:523-528 | for a non-empty list the average times the count is the total calories; for an empty list it is 0 |
| WorkoutStats.TotalActivityTime | src/main/java/gui/WorkoutStatsGUI.java:535-539 | the total duration is the average duration times the count, and 0 for no workouts |
| WorkoutStats.TotalBurnedCalories | src/main/java/gui/WorkoutStatsGUI.java:546-550 | the total calories are the average calories times the count, and 0 for no workouts |
| WorkoutStats.TotalsOfSplit | src/main/java/gui/WorkoutStatsGUI.java:535-550 | the totals of a list are the totals of any two parts it splits into, added |
| WorkoutStats.LongestActivity | src/main/java/gui/WorkoutStatsGUI.java:557-561 | none exactly for an empty list; otherwise the first workout whose duration no other exceeds |
| WorkoutStats.ShortestActivity | src/main/java/gui/WorkoutStatsGUI.java:568-572 | none exactly for an empty list; otherwise the first workout whose duration no other undercuts |
| WorkoutStats.CaloriesByTypeSums | src/main/java/gui/WorkoutStatsGUI.java:307-311 | a name has a bar exactly when some workout has it, and its total is the sum of the calories of the workouts with that name |
| WorkoutStats.GetRepetitions | src/main/java/gui/WorkoutStatsGUI.java:652-657 | 0 for any workout not named rope jumping, up to case; for rope jumping the stored count truncated to a whole number |
| WorkoutStats.WorkoutStatsScreen.constructor | src/main/java/gui/WorkoutStatsGUI.java:37 | the screen starts with no workouts and no most intense workout |
| WorkoutStats.WorkoutStatsScreen.ApplyOutcome | src/main/java/gui/WorkoutStatsGUI.java:432-472 | a parsed workout is appended; the last workout becomes the most intense one when there was none or the entry burned strictly more; an unsupported entry that would do so with no workout yet ends loading |
| WorkoutStats.WorkoutStatsScreen.ParseActivity | src/main/java/gui/WorkoutStatsGUI.java:402-477 | one entry changes the state as its parse outcome says: a rejected number leaves everything as it was |
| WorkoutStats.WorkoutStatsScreen.ParseEntries | src/main/java/gui/WorkoutStatsGUI.java:387-390 | the entries of a line are applied in order, and an uncaught exception ends the loop |
| WorkoutStats.WorkoutStatsScreen.LoadLine | src/main/java/gui/WorkoutStatsGUI.java:378-390 | an empty line or another user's line changes nothing; a line with no fields, or the user's line without a second field, ends loading; the user's line applies its entries |
| WorkoutStats.WorkoutStatsScreen.LoadWorkoutDataFromFile | src/main/java/gui/WorkoutStatsGUI.java:368-395 | the screen's state is every line applied in file order from an empty screen, or the crash; a missing file leaves the screen empty |
| WorkoutStats.ParseAllAppend | src/main/java/gui/WorkoutStatsGUI.java:387-390 | parsing two runs of entries is parsing each |
| WorkoutStats.CrashedStays | src/main/java/gui/WorkoutStatsGUI.java:387-390 | once loading has crashed the remaining entries change nothing |
| WorkoutStats.ApplyOutcomesAppend | src/main/java/gui/WorkoutStatsGUI.java:388-390 | applying two runs of outcomes is applying the first, then the second |
| WorkoutStats.ApplyOutcomesOfCrashed | src/main/java/gui/WorkoutStatsGUI.java:388-390 | entries after a crash change nothing |
| WorkoutStats.MostIntenseStep | src/main/java/gui/WorkoutStatsGUI.java:469-472 | an added workout keeps the most intense one the first of those with the most calories: it replaces it only when it burned strictly more, so the first of equal maxima stays |
| WorkoutStats.MostIntenseIsFirstMax | src/main/java/gui/WorkoutStatsGUI.java:402-472 | from an empty screen, entries that all add a workout give the workouts in order, no most intense workout exactly when there are none, and otherwise the first workout with the most calories |
| WorkoutStats.UnsupportedPromotesLast | src/main/java/gui/WorkoutStatsGUI.java:465-472 | after a workout and then one of fewer calories, an unsupported entry that burned more than both makes the second, lower-calorie workout the most intense, which is not the first calorie maximum |
| WorkoutRoundTrip.KindNameChars | src/main/java/gui/WorkoutStatsGUI.java:418-452 | a name equal to a kind's name up to case is unchanged by `trim` and holds none of the letters that start the later labels |
| WorkoutRoundTrip.ExtractFieldAt | src/main/java/gui/WorkoutStatsGUI.java:487-504 | with the start tag first found at `p` and the end tag next found at `e`, the field is the trimmed text between them |
| WorkoutRoundTrip.StartTagAt | src/main/java/gui/WorkoutStatsGUI.java:488 | a tag whose character is absent from the text before it is first found right after that text |
| WorkoutRoundTrip.StartTagFirst | src/main/java/gui/WorkoutStatsGUI.java:488 | a tag at the very start of the entry is found at position 0 |
| WorkoutRoundTrip.KindNameClassified | src/main/java/gui/WorkoutStatsGUI.java:418-452 | a name equal up to case to a kind's name is classified as running, cycling or rope jumping exactly when it is that kind |
| WorkoutRoundTrip.ExtractFieldOf | src/main/java/gui/WorkoutStatsGUI.java:487-504 | the field between a start tag and an end tag, neither of which occurs earlier, is the trimmed text between them |
| WorkoutRoundTrip.ExtractFieldToEnd | src/main/java/gui/WorkoutStatsGUI.java:494 | with an empty end tag the field runs to the end of the entry |
| WorkoutRoundTrip.NameOfSummary | src/main/java/Activity.java:163-169 | the name field of a summary is the activity's name |
| WorkoutRoundTrip.CaloriesOfSummary | src/main/java/Activity.java:166 | the calories field of a summary is the calories' text |
| WorkoutRoundTrip.DurationOfSummary | src/main/java/Activity.java:167 | the duration field of a summary is the duration's text |
| WorkoutRoundTrip.DistanceOfRunning | src/main/java/RunningActivity.java:80 | the distance field of a running summary is the distance's text followed by ` km` |
| WorkoutRoundTrip.SpeedOfRunning | src/main/java/RunningActivity.java:81 | the average-speed field runs to the end and is the speed's text followed by ` km/h` |
| WorkoutRoundTrip.DistanceOfCycling | src/main/java/CyclingActivity.java:80 | the distance field of a cycling summary is the distance's text followed by ` km` |
| WorkoutRoundTrip.SpeedOfCycling | src/main/java/CyclingActivity.java:81 | the maximum-speed field is the speed's text followed by ` km/h` |
| WorkoutRoundTrip.RepetitionsOfRope | src/main/java/RopeJumpingActivity.java:53-61 | the repetitions field of a rope-jumping summary parses back to the count |
| WorkoutRoundTrip.DistanceText | src/main/java/gui/WorkoutStatsGUI.java:425 | removing ` km` and trimming recovers the number's text |
| WorkoutRoundTrip.SpeedText | src/main/java/gui/WorkoutStatsGUI.java:429 | removing ` km/h` and trimming recovers the number's text |
| WorkoutRoundTrip.ParseMovingFields | src/main/java/gui/WorkoutStatsGUI.java:418-450 | an entry whose name and five numbers read back adds the running or cycling workout of those values |
| WorkoutRoundTrip.ParseRunningInfo | src/main/java/gui/WorkoutStatsGUI.java:418-433 | parsing a running activity's summary adds the workout of its name, calories, duration, distance and average speed, for numbers whose text reads back |
| WorkoutRoundTrip.ParseCyclingInfo | src/main/java/gui/WorkoutStatsGUI.java:435-450 | parsing a cycling activity's summary adds its workout, the maximum speed in the speed slot, for numbers whose text reads back |
| WorkoutRoundTrip.ParseRopeJumpingFields | src/main/java/gui/WorkoutStatsGUI.java:452-463 | an entry whose name, numbers and count read back adds the rope-jumping workout with the count in the distance slot and speed 0 |
| WorkoutRoundTrip.ParseRopeJumpingInfo | src/main/java/gui/WorkoutStatsGUI.java:452-463 | parsing a rope-jumping activity's summary adds its workout, for numbers whose text reads back |
| WorkoutRoundTrip.ParseEntryOfInfo | src/main/java/gui/WorkoutStatsGUI.java:402-477 | for every activity named after its kind, parsing its summary adds exactly the workout of its fields, for numbers whose text reads back |
| Workouts.GetUserWeight | src/main/java/gui/WorkoutsGUI.java:249-268 | a missing file gives 0; otherwise the weight of the user's first line with at least three fields, 0 when that weight is not a number or no line matches |
| Workouts.UserWeightOfFirst | src/main/java/gui/WorkoutsGUI.java:254-258 | the user's first line of three or more fields decides the weight; later lines are never read |
| Workouts.UserWeightOfNone | src/main/java/gui/WorkoutsGUI.java:266-267 | with no such line the weight is 0 |
| Workouts.StoredWeightOfRecord | src/main/java/gui/WorkoutsGUI.java:255-257 | a record written with `;`-free fields and the weight's text in the third field reads back as that weight, for numbers whose text reads back |
| Activities.MinutesBetween | src/main/java/Activity.java:144 | `Duration.between(...).toMinutes()`: the whole minutes between the two instants, truncated toward zero, so the leftover seconds lie in [0, 60) forward and in (-60, 0] backward |
| Activities.CalculatedDurationOfPlusMinutes | src/main/java/Activity.java:143-147 | an activity ending exactly n minutes after its start gets duration n from `calculateDuration`, and is unchanged by it exactly when it already had that duration |
| Activities.CaloriesPerMinute | src/main/java/Activity.java:154-156 | burned calories over duration is the finite quotient for a non-zero duration, and no finite number (infinity or NaN) for a zero duration |
| Activities.InfoFreeOfSeparator | src/main/java/RunningActivity.java:75-84 | the summary of every kind is non-empty and holds no `;` and no `~` unless the activity's name does, so it fits one `~`-separated entry of a `;`-separated trainings line, for numbers whose text reads back |
| Activities.ActivityObject.RunningActivity | src/main/java/RunningActivity.java:27-31 | a new running activity holds exactly the common fields given and the distance and average speed given |
| Activities.ActivityObject.CyclingActivity | src/main/java/CyclingActivity.java:27-31 | a new cycling activity holds exactly the common fields given and the distance and maximum speed given |
| Activities.ActivityObject.RopeJumpingActivity | src/main/java/RopeJumpingActivity.java:24-27 | a new rope-jumping activity holds exactly the common fields given and the repetitions given |
| Activities.ActivityObject.SetId | src/main/java/Activity.java:53-55 | only the id changes, to the value given |
| Activities.ActivityObject.SetName | src/main/java/Activity.java:71-73 | only the name changes, to the value given |
| Activities.ActivityObject.SetBurnedCalories | src/main/java/Activity.java:89-91 | only the burned calories change, to the value given |
| Activities.ActivityObject.SetStartTime | src/main/java/Activity.java:107-109 | only the start time changes, to the value given |
| Activities.ActivityObject.SetEndTime | src/main/java/Activity.java:125-127 | only the end time changes, to the value given |
| Activities.ActivityObject.SetCoveredDistance | src/main/java/RunningActivity.java:47-49 | on a running or cycling activity only the covered distance changes; the kind and its speed are kept |
| Activities.ActivityObject.SetAverageSpeed | src/main/java/RunningActivity.java:65-67 | on a running activity only the average speed changes |
| Activities.ActivityObject.SetMaxSpeed | src/main/java/CyclingActivity.java:65-67 | on a cycling activity only the maximum speed changes |
| Activities.ActivityObject.SetNumberOfRepetitions | src/main/java/RopeJumpingActivity.java:43-45 | on a rope-jumping activity only the repetitions change |
| Activities.ActivityObject.CalculateDuration | src/main/java/Activity.java:143-147 | the stored duration becomes the whole minutes between start and end, nothing else changes, and the value returned is the new duration |
| StandardUsers.CalculateBmi | src/main/java/StandardUser.java:106-108 | a non-zero height gives the finite quotient of the weight by the squared height; a zero height gives positive infinity for a positive weight and NaN for a zero weight |
| StandardUsers.BmiOfZeroHeight | src/main/java/StandardUser.java:106-108 | with a zero height the BMI is never a finite number |
| StandardUsers.CalculateDurations | src/main/java/StandardUser.java:117 | the list of activities with durations recomputed has the same length, and each entry is the activity at that place with its duration recomputed from its times |
| StandardUsers.RecalculateAt | src/main/java/StandardUser.java:117 | recomputing one object's duration returns the recomputed duration of its first value; every object still holds its first value or its recomputed one, and all up to this one hold the recomputed one, even when an object is listed twice |
| StandardUsers.RecalculateAll | src/main/java/StandardUser.java:116-118 | after the pass every object holds its recomputed value and the total is the sum of the recomputed durations |
| StandardUsers.AllRecalculated | src/main/java/StandardUser.java:116-118 | once every object holds its recomputed value, the list's values are the first values with their durations recomputed |
| StandardUsers.StandardUser.constructor | src/main/java/StandardUser.java:32-41 | the new user holds exactly the profile fields, the weight history and the activity list given |
| StandardUsers.StandardUser.SetId | src/main/java/StandardUser.java:47-49 | only the id changes, to the value given |
| StandardUsers.StandardUser.SetName | src/main/java/StandardUser.java:55-57 | only the name changes, to the value given |
| StandardUsers.StandardUser.SetWeight | src/main/java/StandardUser.java:63-65 | only the weight changes, to the value given |
| StandardUsers.StandardUser.SetHeight | src/main/java/StandardUser.java:71-73 | only the height changes, to the value given |
| StandardUsers.StandardUser.SetAge | src/main/java/StandardUser.java:79-81 | only the age changes, to the value given |
| StandardUsers.StandardUser.SetGender | src/main/java/StandardUser.java:87-89 | only the gender changes, to the value given |
| StandardUsers.StandardUser.CalculateAverageActivityTime | src/main/java/StandardUser.java:115-120 | every activity's stored duration is replaced by the one from its times, and the result is the sum of the new durations over the count, which is NaN for an empty list; for a non-empty list it is the new total activity time over the count |
| StandardUsers.StandardUser.CalculateAverageActivityCalories | src/main/java/StandardUser.java:127-132 | a non-empty list gives the finite mean of the burned calories; an empty one gives NaN |
| StandardUsers.StandardUser.CalculateTotalActivityTime | src/main/java/StandardUser.java:139-143 | the total of the stored durations is 0 for no activities; after `calculateAverageActivityTime` the average is this total over the count |
| StandardUsers.StandardUser.CalculateTotalBurnedCalories | src/main/java/StandardUser.java:150-154 | the total calories are 0 for no activities, and the mean calories of a non-empty list is this total over the count |
| StandardUsers.StandardUser.TotalsNonNegative | src/main/java/StandardUser.java:139-154 | with no negative duration or calories stored, neither total is negative |
| StandardUsers.StandardUser.FindTheLongestActivity | src/main/java/StandardUser.java:161-165 | null exactly for an empty list; otherwise the first activity whose duration no other activity exceeds |
| StandardUsers.StandardUser.FindTheShortestActivity | src/main/java/StandardUser.java:172-176 | null exactly for an empty list; otherwise the first activity whose duration no other activity undercuts |
| StandardUsers.StandardUser.FindMostEffectiveActivity | src/main/java/StandardUser.java:183-187 | null exactly for an empty list; otherwise the first activity with the greatest calories per minute under `Double.compare` order, where NaN ranks above positive infinity and both above every number |
| JavaText.Split | src/main/java/gui/WeightHistoryGUI.java:299 | `split(";")`: no field holds the separator, and the fields are those between separators with the trailing empty ones dropped (a text without the separator gives itself) |
| JavaText.SplitOfJoin | src/main/java/gui/RegisterGUI.java:193 | a record joined with `;` whose fields are free of `;` and whose last field is non-empty splits back into exactly those fields |
| JavaText.TrimIdempotent | src/main/java/gui/AboutMeGUI.java:409 | trimming a trimmed text changes nothing |
| JavaText.TrimEnds | src/main/java/gui/WorkoutStatsGUI.java:503 | `trim()` leaves neither end at or below the space |
| JavaText.TrimOfFixed | src/main/java/gui/WorkoutStatsGUI.java:503 | a text with no such character at either end is its own trim |
| JavaText.TrimOfSpaced | src/main/java/gui/WorkoutStatsGUI.java:409 | a text with visible ends is its own trim even with a space added before or after it |
| JavaText.IndexOf | src/main/java/gui/WorkoutStatsGUI.java:488 | `indexOf` gives the first place the text occurs, and -1 exactly when it occurs nowhere |
| JavaText.IndexOfFromSpec | src/main/java/gui/WorkoutStatsGUI.java:494 | `indexOf` from a start index gives the first occurrence at or after it, or -1 when there is none |
| JavaText.ContainsIff | src/main/java/gui/coachgui/SessionRequestsGUI.java:315 | `contains` holds exactly when the text occurs somewhere |
| JavaText.EqualsIgnoreCaseChars | src/main/java/gui/WorkoutStatsGUI.java:418 | each character of a text equal to another up to case is a character of the other, its upper case, or the upper case of one of them |
| JavaText.NotInUpToCase | src/main/java/gui/WorkoutStatsGUI.java:418 | a text equal to another up to case holds no character whose upper case none of the other's characters has |
| JavaText.ReplaceSuffix | src/main/java/gui/WorkoutStatsGUI.java:425 | removing a unit suffix such as " km" from a number followed by that unit gives the number back |
| JavaNumbers.ParseIntOfIntToString | src/main/java/gui/coachgui/MyStudentsGUI.java:125 | `Integer.parseInt` reads back every 32-bit integer from its decimal text |
| JavaNumbers.ParseInt | src/main/java/gui/WorkoutStatsGUI.java:459 | `Integer.parseInt` accepts only an optional sign followed by ASCII digits (other Unicode digits are refused, see "Left out"), so an empty text, a space or a decimal point is refused; without a minus sign the value is not negative |
| JavaNumbers.IntToStringChars | src/main/java/RopeJumpingActivity.java:58 | the text of an `int` is non-empty and holds only the minus sign and digits |
| JavaNumbers.IntTextFreeOfSeparators | src/main/java/RopeJumpingActivity.java:58 | the text of an `int` is non-empty and holds no `;`, `~` or space |
| JavaNumbers.ParseDoubleOfShow | src/main/java/gui/WorkoutStatsGUI.java:409 | `Double.parseDouble` reads a number back from its text, for a number whose text reads back as `RoundTrips` states |
| JavaNumbers.Wrap32 | src/main/java/gui/RegisterTrainingGUI.java:366-367 | 32-bit wrap-around: the result differs from the input by a multiple of 2^32 and is the input itself when it is in range |
| JavaNumbers.DoubleToInt | src/main/java/gui/WorkoutStatsGUI.java:654 | `(int)` on a double truncates toward zero and saturates at the 32-bit bounds |
| JavaNumbers.JDivRem | src/main/java/gui/MainGUI.java:217-219 | Java's `/` and `%` on integers: quotient times divisor plus remainder is the dividend, the quotient truncates toward zero and the remainder takes the dividend's sign |
| JavaNumbers.Divide | src/main/java/StandardUser.java:107 | double division is finite exactly for a non-zero divisor, where it times the divisor gives the dividend, and NaN exactly for zero over zero |
| JavaNumbers.Compare | src/main/java/StandardUser.java:163 | `Double.compare` is zero exactly on equal values and gives -1, 0 or 1 |
| JavaNumbers.CompareTransitive | src/main/java/StandardUser.java:163 | `Double.compare` order is transitive |
| Reductions.SumOfAppend | src/main/java/StandardUser.java:139-143 | the sum over two lists put together is the sum of the two sums |
| Reductions.MaxIndex | src/main/java/StandardUser.java:161-165 | the index of the first element whose key no other element's key exceeds |
| Reductions.MinIndex | src/main/java/StandardUser.java:172-176 | the index of the first element whose key no other element's key undercuts |
| Reductions.FirstMaxUnique | src/main/java/StandardUser.java:163 | there is only one such first maximum, so the stream's choice is determined |
| Reductions.FirstMinUnique | src/main/java/StandardUser.java:174 | there is only one such first minimum |
| Reductions.MaxBy | src/main/java/gui/WorkoutStatsGUI.java:558-560 | `max(...).orElse(null)`: empty exactly for an empty list, otherwise the first element of greatest key |
| Reductions.MinBy | src/main/java/gui/WorkoutStatsGUI.java:569-571 | `min(...).orElse(null)`: empty exactly for an empty list, otherwise the first element of least key |

## Left out

- The Swing and JFreeChart screens are not modelled: frames, panels, tables, buttons, dialogs, fonts, colours and the `Timer` redirects. Neither are `BMIIndicator`'s painting and the navigation between screens. Only the values the screens compute and show are kept.
- File I/O is not modelled: opening, closing, `createNewFile` and the printed `IOException`s. A file is the list of its lines and `None` when it is missing, and a write is the list of lines written. Partial writes and races between processes are out of scope.
- Binary floating point is not modelled. Doubles are exact `real`s, so rounding is not captured. Division by zero does give `JDouble` infinities and NaN where the code can divide by zero: calories per minute, the BMI, the average activity time, the training speeds. The `Double.compare` order over those values is kept. `Double.parseDouble` also accepts the texts `NaN` and `Infinity`, and an `Option<real>` cannot hold what they give: a typed distance, duration or weight of `Infinity` falls to the unconstrained read of the `Numerals` parameter. So the non-finite values the model tracks are only those that come from dividing by zero, and `RegisterTraining.NonFiniteSpeedOnlyAtZero` holds for distances that are real numbers.
- `Double.toString` and `Double.parseDouble` are the `Numerals` parameter. Their round trip is assumed per number, through the `RoundTrips`, `NumbersRoundTrip` and `ReadsInteger` hypotheses of the lemmas that write and read back a number. It is not proved.
- `String.format("%.2f", ...)` is not modelled. The model keeps the numbers, not their two-decimal text: the calories label, the profile and students tables, the statistics labels.
- `LocalDateTime`, `LocalDate`, `Period` and `Duration` parsing is not modelled. The current time, the chosen date and the elapsed minutes since account creation are parameters. A creation date that does not parse is an absent elapsed time.
- `UUID.randomUUID()` and its `hashCode()` are parameters.
- Java `null` strings are kept only where the code tests for them: the session ids, and the main screen's name and date, which are `Option`s. Elsewhere strings are never null.
- The static session fields `LoginGUI.loggedInUserUUID` and `loggedInCoachID`, and `RegisterGUI.loginData`, are not global state. Each is an explicit input, or an output of the screen that sets it.
- `StandardUser.getAllInfo` is not modelled: it renders doubles as text, and it dereferences `null` on an empty activity list.
- `DateLabelFormatter`, `CoachGUI` and `Main` are not modelled: they are a date-format wrapper and navigation only.
- The JUnit tests `StandardUserTest` and `TestActivity` are not modelled. The contracts of `StandardUsers` take what those tests check about the BMI, averages, totals and extremes into account.
- WorkoutStats: the chart's dataset is the `CaloriesByType` map. The order in which JFreeChart draws its bars, and the statistics labels' special text for a rope-jumping most intense workout, are not modelled.
- RegisterTraining.Submit: a running or cycling form with a zero duration gives `NonFiniteSpeed`. The code would build the activity with an infinite or NaN speed and save it, and that save is not modelled. The handler's catch of any other exception (the "Error:" message) is not modelled either; for a form with a date, a parsable duration and a parsable distance, no other exception arises in the model.
- SessionRequests.SessionRequestsScreen.constructor: the model always has a logged-in coach. The error dialog for a missing or empty coach id, after which the screen stays empty, is not modelled.
- WorkoutStats: the model keeps the code's update of the most intense workout after an entry of an unsupported kind. When that entry burned more than the current most intense workout, the last workout read becomes the most intense one, even when it burned less (`WorkoutStats.UnsupportedPromotesLast`). `WorkoutStats.MostIntenseIsFirstMax` states the first calorie maximum only for entries that all add a workout.
- JavaNumbers.ParseInt: only the ASCII digits `0` to `9` are read. Java's `Integer.parseInt` also reads the other Unicode decimal digits through `Character.digit`, so `"١٢"` (Arabic-Indic digits) is 12 in Java and refused in the model. Such a text therefore gives a different outcome in four places: the training duration (RegisterTrainingGUI.java:172, `NotNumeric` in the model, a saved training in Java), the height on the first-data form (AskForDataGUI.java:158), the age on the profile screen (AboutMeGUI.java:595) and the age in the coach's students table (MyStudentsGUI.java:128, a crash in the model, a row in Java).
- JavaText.EqualsIgnoreCase: case is folded for the ASCII letters only. Java's `Character.toUpperCase` also folds other letters, for example the dotless `ı` (U+0131) to `I`. A workout name such as `Runnıng` therefore equals `Running` up to case in Java but not in the model, and `WorkoutStats` and `GetRepetitions` classify it differently.
- AskForData: the name field is not checked for `;`, as in the code. A name with a `;` breaks the record, and the model keeps that.

## Findings

| source | as written | input that shows it | evidently intended | confidence | as-written member | corrected member |
|---|---|---|---|---|---|---|
| src/main/java/gui/coachgui/MyStudentsGUI.java:104 | the coach's line in the students file is the first line that starts with the coach id, with no `;` after the id | students file `c10;u2`; coach `c1` accepts `u1`, which writes the new line `c1;u1`; the students screen of `c1` then reads the line of `c10` and lists `u2`, not `u1` | match the coach id followed by `;`, as the session-requests and coaches screens do | not executed | MyStudents.PrefixCoachReadsOtherLine | MyStudents.AcceptedStudentListed |
| src/main/java/gui/coachgui/SessionRequestsGUI.java:315 | a student counts as already on the coach's line when the line contains the text `;` followed by the student's id anywhere | students file `c1;u10`; coach `c1` accepts `u1`; the line holds `;u1` inside `;u10`, so nothing is appended and `u1` is never among the coach's students. This needs one id to be a proper prefix of another, so it needs hand-written or foreign ids: the ids `addNewUser` generates are 36-character `UUID` texts, and it never shows with those | compare the id with the line's fields | not executed | MyStudents.SubstringStudentNotListed | MyStudents.AcceptedStudentAlwaysListed |

`MyStudents.GetCoachStudents` keeps the prefix test as written, because it models the screen. The corrected reading is `SessionRequests.CoachLineUuids`, which the request and acceptance screens share. With it, a student whose `;id` occurs on no line of the coach is among the coach's students once accepted (`MyStudents.AcceptedStudentListed`).

`SessionRequests.MoveStudentToCoach` keeps the substring test as written. The defect needs an id that is a proper prefix of another one. The ids `RegisterGUI.addNewUser` generates are all 36-character `UUID` texts, so in a line of such ids, `;` followed by an id occurs only where that id is a whole field; only hand-written or foreign ids show it. `MyStudents.FieldMovedStudents` is the acceptance with the id compared field by field. With it every accepted student is listed, whatever the students file held (`MyStudents.AcceptedStudentAlwaysListed`).
