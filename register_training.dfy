// The training form: the MET table and calorie estimate, the activity a
// submission builds, and the line edit that stores its summary in the
// trainings file.

module RegisterTraining {
  import opened JavaText
  import opened JavaNumbers
  import opened Activities
  import opened WorkoutStats
  import opened WorkoutRoundTrip

  const MET_RUNNING: real := 7.0
  const MET_CYCLING: real := 6.0
  const MET_ROPE_JUMPING: real := 12.0

  /** The MET of a training type; an unknown type counts as 1.0. */
  function BaseMet(trainingType: string): real
  {
    if trainingType == "Running" then MET_RUNNING
    else if trainingType == "Cycling" then MET_CYCLING
    else if trainingType == "Rope Jumping" then MET_ROPE_JUMPING
    else 1.0
  }

  /** The factor an intensity applies; an unknown intensity leaves the MET as it is. */
  function IntensityFactor(intensity: string): real
  {
    if intensity == "Low" then 0.8
    else if intensity == "High" then 1.2
    else 1.0
  }

  /** `getMetValue(trainingType, intensity)`. */
  function GetMetValue(trainingType: string, intensity: string): (r: real)
    ensures r == BaseMet(trainingType) * IntensityFactor(intensity)
    ensures r > 0.0
  {
    var base := BaseMet(trainingType);
    if intensity == "Low" then base * 0.8
    else if intensity == "Medium" then base
    else if intensity == "High" then base * 1.2
    else base
  }

  /** Every training type burns more at a higher intensity, and "Medium" is the base MET. */
  lemma MetIncreasesWithIntensity(trainingType: string)
    ensures GetMetValue(trainingType, "Low") < GetMetValue(trainingType, "Medium") < GetMetValue(trainingType, "High")
    ensures GetMetValue(trainingType, "Medium") == BaseMet(trainingType)
  {
  }

  /** The table the form uses. */
  lemma MetTable()
    ensures GetMetValue("Running", "Low") == 5.6 && GetMetValue("Running", "High") == 8.4
    ensures GetMetValue("Cycling", "Low") == 4.8 && GetMetValue("Cycling", "High") == 7.2
    ensures GetMetValue("Rope Jumping", "Low") == 9.6 && GetMetValue("Rope Jumping", "High") == 14.4
    ensures GetMetValue("Swimming", "Medium") == 1.0
  {
  }

  /** `calculateCaloriesBurned(metValue, duration)`: MET times weight times hours. */
  function CaloriesBurned(metValue: real, userWeight: real, duration: Int32): real
  {
    metValue * userWeight * (duration as real / 60.0)
  }

  /** The estimate is proportional to the duration: an hour burns MET times weight, and durations add up. */
  lemma CaloriesProportional(metValue: real, userWeight: real, d1: Int32, d2: Int32)
    requires INT_MIN <= d1 + d2 <= INT_MAX
    ensures CaloriesBurned(metValue, userWeight, 60) == metValue * userWeight
    ensures CaloriesBurned(metValue, userWeight, 0) == 0.0
    ensures CaloriesBurned(metValue, userWeight, d1 + d2)
         == CaloriesBurned(metValue, userWeight, d1) + CaloriesBurned(metValue, userWeight, d2)
  {
    var k := metValue * userWeight;
    assert k * ((d1 + d2) as real / 60.0) == k * (d1 as real / 60.0) + k * (d2 as real / 60.0);
  }

  /** `calculateRepetitions(duration)`: two jumps a second, in 32-bit arithmetic. */
  function CalculateRepetitions(durationMinutes: Int32): (r: Int32)
    ensures -17_895_697 <= durationMinutes <= 17_895_697 ==> r == 120 * durationMinutes
  {
    var durationInSeconds := Wrap32(durationMinutes * 60);
    Wrap32(2 * durationInSeconds)
  }

  /** Beyond 17,895,697 minutes the count wraps around to a negative number. */
  lemma RepetitionsWrap()
    ensures CalculateRepetitions(17_895_698) < 0
  {
  }

  // ----- the submission -----

  /** What the form holds when "Submit" is clicked; a missing date is `None`, times are seconds. */
  datatype TrainingForm = TrainingForm(
    trainingType: string,
    selectedDate: Option<int>,
    durationText: string,
    distanceText: string,
    intensity: string)

  /** What a submission leads to. */
  datatype Submission =
    | NoDate               // "Please select a valid date."
    | NotNumeric           // "Duration and Distance must be numeric."
    | NonFiniteSpeed       // a zero duration: Java stores an infinite or NaN speed
    | Built(activity: Activity)

  /**
   * The submit handler up to saving: the date is checked first, then the
   * duration (`Integer.parseInt`, no trimming) and, for running and cycling,
   * the distance (`Double.parseDouble`).
   */
  function Submit(nf: Numerals, form: TrainingForm, userWeight: real, id: Int32): (r: Submission)
    ensures form.selectedDate.None? ==> r == NoDate
    ensures form.selectedDate.Some? && ParseInt(form.durationText).None? ==> r == NotNumeric
  {
    if form.selectedDate.None? then NoDate
    else
      var startTime := form.selectedDate.value;
      var parsed := ParseInt(form.durationText);
      if parsed.None? then NotNumeric
      else
        var duration := parsed.value;
        var calories := CaloriesBurned(GetMetValue(form.trainingType, form.intensity), userWeight, duration);
        var endTime := startTime + 60 * duration;
        if form.trainingType == "Running" || form.trainingType == "Cycling" then
          var distance := ParseDouble(nf, form.distanceText);
          if distance.None? then NotNumeric
          else
            var avgSpeed := Divide(distance.value, duration as real / 60.0);
            if !avgSpeed.Finite? then NonFiniteSpeed
            else if form.trainingType == "Running" then
              Built(Activity(id, "Running", calories, duration as real, startTime, endTime,
                             Running(distance.value, avgSpeed.v)))
            else
              Built(Activity(id, "Cycling", calories, duration as real, startTime, endTime,
                             Cycling(distance.value, avgSpeed.v + 5.0)))
        else
          Built(Activity(id, "Rope Jumping", calories, duration as real, startTime, endTime,
                         RopeJumping(CalculateRepetitions(duration))))
  }

  /**
   * A built activity carries its kind's name, ends the entered number of
   * minutes after the chosen date, stores that duration (so recalculating it
   * changes nothing), and burns what the MET table gives.
   */
  lemma SubmittedActivity(nf: Numerals, form: TrainingForm, userWeight: real, id: Int32)
    requires Submit(nf, form, userWeight, id).Built?
    ensures var a := Submit(nf, form, userWeight, id).activity;
      var duration := ParseInt(form.durationText).value;
      && form.selectedDate == Some(a.startTime)
      && a.endTime == a.startTime + 60 * duration
      && a.duration == duration as real
      && WithCalculatedDuration(a) == a
      && a.burnedCalories == CaloriesBurned(GetMetValue(form.trainingType, form.intensity), userWeight, duration)
      && a.name == KindName(a.details)
      && (a.details.Running? <==> form.trainingType == "Running")
      && (a.details.Cycling? <==> form.trainingType == "Cycling")
  {
    var a := Submit(nf, form, userWeight, id).activity;
    CalculatedDurationOfPlusMinutes(a, ParseInt(form.durationText).value);
  }

  /** A running activity stores the parsed distance and, as its average speed, that distance over the entered hours. */
  lemma SubmittedRunningSpeed(nf: Numerals, form: TrainingForm, userWeight: real, id: Int32)
    requires Submit(nf, form, userWeight, id).Built?
    requires form.trainingType == "Running"
    ensures var a := Submit(nf, form, userWeight, id).activity;
      && a.details.Running?
      && Some(a.details.coveredDistance) == ParseDouble(nf, form.distanceText)
      && Divide(a.details.coveredDistance, ParseInt(form.durationText).value as real / 60.0) == Finite(a.details.averageSpeed)
  {
    var d := ParseInt(form.durationText).value;
    var dist := ParseDouble(nf, form.distanceText).value;
    var sp := Divide(dist, d as real / 60.0);
    assert sp.Finite?;
    assert Submit(nf, form, userWeight, id).activity.details == Running(dist, sp.v);
  }

  /** A cycling activity stores as its maximum speed 5 km/h over the speed that covers the distance. */
  lemma SubmittedCyclingSpeed(nf: Numerals, form: TrainingForm, userWeight: real, id: Int32)
    requires Submit(nf, form, userWeight, id).Built?
    requires form.trainingType == "Cycling"
    ensures var a := Submit(nf, form, userWeight, id).activity;
      && a.details.Cycling?
      && Some(a.details.coveredDistance) == ParseDouble(nf, form.distanceText)
      && Divide(a.details.coveredDistance, ParseInt(form.durationText).value as real / 60.0) == Finite(a.details.maxSpeed - 5.0)
  {
    var d := ParseInt(form.durationText).value;
    var dist := ParseDouble(nf, form.distanceText).value;
    var sp := Divide(dist, d as real / 60.0);
    assert sp.Finite?;
    assert Submit(nf, form, userWeight, id).activity.details == Cycling(dist, sp.v + 5.0);
  }

  /** Any other training type is rope jumping, with two repetitions a second. */
  lemma SubmittedRopeJumping(nf: Numerals, form: TrainingForm, userWeight: real, id: Int32)
    requires Submit(nf, form, userWeight, id).Built?
    requires form.trainingType != "Running" && form.trainingType != "Cycling"
    ensures var a := Submit(nf, form, userWeight, id).activity;
      && a.details.RopeJumping?
      && a.details.numberOfRepetitions == CalculateRepetitions(ParseInt(form.durationText).value)
  {
  }

  /** A zero duration is the only way a running or cycling submission with a date and numbers fails. */
  lemma NonFiniteSpeedOnlyAtZero(nf: Numerals, form: TrainingForm, userWeight: real, id: Int32)
    ensures Submit(nf, form, userWeight, id) == NonFiniteSpeed
        <==> && form.selectedDate.Some?
             && ParseInt(form.durationText) == Some(0)
             && (form.trainingType == "Running" || form.trainingType == "Cycling")
             && ParseDouble(nf, form.distanceText).Some?
  {
  }

  // ----- saving the summary -----

  /** One line of the trainings file after saving: the user's lines get the summary appended after a `~`. */
  function WithTraining(line: string, uuid: string, info: string): string
  {
    if StartsWith(line, uuid + ";") then line + "~" + info else line
  }

  /** Some line of the file belongs to the user. */
  predicate HasUserLine(lines: seq<string>, uuid: string)
  {
    exists k :: 0 <= k < |lines| && StartsWith(lines[k], uuid + ";")
  }

  /** Every line after saving, in order. */
  function WithTrainingAll(lines: seq<string>, uuid: string, info: string): (r: seq<string>)
    ensures |r| == |lines|
    ensures forall k :: 0 <= k < |lines| ==> r[k] == WithTraining(lines[k], uuid, info)
  {
    if |lines| == 0 then []
    else WithTrainingAll(lines[..|lines| - 1], uuid, info) + [WithTraining(lines[|lines| - 1], uuid, info)]
  }

  /** The trainings file after `saveTrainingToFile`. */
  function SavedTraining(lines: seq<string>, uuid: string, info: string): seq<string>
  {
    WithTrainingAll(lines, uuid, info) + (if HasUserLine(lines, uuid) then [] else [uuid + ";" + info])
  }

  /**
   * `saveTrainingToFile`: the lines are copied in order, every line of the
   * user gets `~` and the summary appended, and when there was none a line
   * `uuid;summary` is added at the end.
   */
  method SaveTrainingToFile(lines: seq<string>, uuid: string, info: string) returns (content: seq<string>)
    ensures content == SavedTraining(lines, uuid, info)
  {
    var userExists := false;
    content := [];
    var i := 0;
    while i < |lines|
      invariant 0 <= i <= |lines|
      invariant content == WithTrainingAll(lines[..i], uuid, info)
      invariant userExists <==> HasUserLine(lines[..i], uuid)
    {
      var line := lines[i];
      if StartsWith(line, uuid + ";") {
        userExists := true;
        line := line + "~" + info;
      }
      assert lines[..i + 1][..i] == lines[..i];
      assert HasUserLine(lines[..i + 1], uuid) <==> HasUserLine(lines[..i], uuid) || StartsWith(lines[i], uuid + ";") by {
        if StartsWith(lines[i], uuid + ";") {
          assert lines[..i + 1][i] == lines[i];
        }
        if HasUserLine(lines[..i + 1], uuid) && !StartsWith(lines[i], uuid + ";") {
          var k :| 0 <= k < i + 1 && StartsWith(lines[..i + 1][k], uuid + ";");
          assert lines[..i][k] == lines[..i + 1][k];
        }
        if HasUserLine(lines[..i], uuid) {
          var k :| 0 <= k < i && StartsWith(lines[..i][k], uuid + ";");
          assert lines[..i + 1][k] == lines[..i][k];
        }
      }
      content := content + [line];
      i := i + 1;
    }
    assert lines[..i] == lines;
    if !userExists {
      content := content + [uuid + ";" + info];
    }
  }

  /** Saving keeps every line that is not the user's, and adds at most one line. */
  lemma SavedTrainingShape(lines: seq<string>, uuid: string, info: string)
    ensures var r := SavedTraining(lines, uuid, info);
      && |r| == |lines| + (if HasUserLine(lines, uuid) then 0 else 1)
      && (forall k :: 0 <= k < |lines| && !StartsWith(lines[k], uuid + ";") ==> r[k] == lines[k])
      && (forall k :: 0 <= k < |lines| && StartsWith(lines[k], uuid + ";") ==> r[k] == lines[k] + "~" + info)
      && (!HasUserLine(lines, uuid) ==> r[|lines|] == uuid + ";" + info)
  {
  }

  /** After saving, the file has a line of the user. */
  lemma SavedTrainingHasUserLine(lines: seq<string>, uuid: string, info: string)
    ensures HasUserLine(SavedTraining(lines, uuid, info), uuid)
  {
    var r := SavedTraining(lines, uuid, info);
    if HasUserLine(lines, uuid) {
      var k :| 0 <= k < |lines| && StartsWith(lines[k], uuid + ";");
      assert r[k] == lines[k] + "~" + info;
      assert r[k][..|uuid + ";"|] == lines[k][..|uuid + ";"|];
    } else {
      assert r[|lines|] == uuid + ";" + info;
      assert r[|lines|][..|uuid + ";"|] == uuid + ";";
    }
  }

  // ----- saving, then loading -----

  /** The line saving adds for a new user is loaded as exactly one entry, the summary. */
  lemma LoadNewUserLine(nf: Numerals, uuid: string, st: Loading, info: string)
    requires ';' !in uuid && ';' !in info && '~' !in info && info != ""
    ensures ApplyLine(nf, uuid, st, uuid + ";" + info) == ApplyEntry(st, ParseEntry(nf, info))
  {
    assert Join([uuid, info], ';') == uuid + ";" + info;
    SplitOfJoin([uuid, info], ';');
    SplitOfSingle(info, '~');
    assert ParseAll(nf, [info]) == [ParseEntry(nf, info)];
    assert ApplyOutcomes(st, [ParseEntry(nf, info)]) == ApplyEntry(ApplyOutcomes(st, []), ParseEntry(nf, info));
  }

  /** A file without a line of the user is left as it is by everything but the added line. */
  lemma WithTrainingAllOfOthers(lines: seq<string>, uuid: string, info: string)
    requires !HasUserLine(lines, uuid)
    ensures WithTrainingAll(lines, uuid, info) == lines
  {
    var r := WithTrainingAll(lines, uuid, info);
    forall k | 0 <= k < |lines|
      ensures r[k] == lines[k]
    {
      assert !StartsWith(lines[k], uuid + ";");
    }
  }

  /**
   * When the user had no line, loading the saved file gives what loading the
   * old file gave, followed by the summary's entry.
   */
  lemma LoadAfterFirstSave(nf: Numerals, uuid: string, lines: seq<string>, info: string)
    requires ';' !in uuid && ';' !in info && '~' !in info && info != ""
    requires !HasUserLine(lines, uuid)
    ensures LoadWorkoutData(nf, uuid, Some(SavedTraining(lines, uuid, info)))
         == ApplyEntry(LoadWorkoutData(nf, uuid, Some(lines)), ParseEntry(nf, info))
  {
    WithTrainingAllOfOthers(lines, uuid, info);
    var saved := lines + [uuid + ";" + info];
    assert SavedTraining(lines, uuid, info) == saved;
    assert saved[..|saved| - 1] == lines;
    LoadNewUserLine(nf, uuid, ApplyLines(nf, uuid, Loaded([], None), lines), info);
  }

  /** No kind name holds a file separator. */
  lemma KindNameFreeOfSeparator(d: Details)
    ensures ';' !in KindName(d) && '~' !in KindName(d)
  {
  }

  /**
   * A first training registered through the form shows up on the statistics
   * screen: the saved file loads as before plus exactly the workout the form
   * built, provided the user id holds no `;` and the activity's numbers
   * read back from their text.
   */
  lemma SubmitThenLoad(nf: Numerals, form: TrainingForm, userWeight: real, id: Int32, uuid: string, lines: seq<string>)
    requires ';' !in uuid && !HasUserLine(lines, uuid)
    requires Submit(nf, form, userWeight, id).Built? && NumbersRoundTrip(nf, Submit(nf, form, userWeight, id).activity)
    ensures var a := Submit(nf, form, userWeight, id).activity;
      LoadWorkoutData(nf, uuid, Some(SavedTraining(lines, uuid, GetAllInfo(nf, a))))
        == ApplyEntry(LoadWorkoutData(nf, uuid, Some(lines)), Added(WorkoutOf(a)))
  {
    var a := Submit(nf, form, userWeight, id).activity;
    SubmittedActivity(nf, form, userWeight, id);
    assert NamedAsKind(a);
    KindNameFreeOfSeparator(a.details);
    InfoFreeOfSeparator(nf, a, ';');
    InfoFreeOfSeparator(nf, a, '~');
    ParseEntryOfInfo(nf, a);
    LoadAfterFirstSave(nf, uuid, lines, GetAllInfo(nf, a));
  }
}
