// The workout statistics screen: it reads the user's line of the trainings
// file, parses each activity summary back into a workout record, tracks the
// most intense workout, and computes totals, averages and extremes.

module WorkoutStats {
  import opened JavaText
  import opened JavaNumbers
  import opened Reductions

  /** The screen's own record of one parsed workout; for rope jumping `distance` holds the repetitions. */
  datatype Workout = Workout(name: string, caloriesBurned: real, duration: real, distance: real, speed: real)

  /**
   * `extractField(entry, startTag, endTag)`: the trimmed text between the first
   * `startTag` and the next `endTag` after it (or the end of the entry when the
   * end tag is empty or absent); empty when the start tag is missing or
   * nothing lies in between.
   */
  function ExtractField(entry: string, startTag: string, endTag: string): string
  {
    var startIndex := TagStart(entry, startTag);
    if startIndex == -1 then ""
    else
      var from := startIndex + |startTag|;
      var endIndex := FieldEnd(entry, endTag, from);
      if from >= endIndex then "" else Trim(entry[from..endIndex])
  }

  /** `entry.indexOf(startTag)`; a tag that is found lies inside the entry. */
  function TagStart(entry: string, startTag: string): (r: int)
    ensures r == -1 || 0 <= r <= |entry| - |startTag|
  {
    IndexOfFromSpec(entry, startTag, 0);
    IndexOf(entry, startTag)
  }

  /** Where the field ends: the end tag's index after `from`, or the end of the entry when it is empty or absent. */
  function FieldEnd(entry: string, endTag: string, from: nat): (r: nat)
    requires from <= |entry|
    ensures from <= r <= |entry|
  {
    IndexOfFromSpec(entry, endTag, from);
    var found := if endTag == "" then |entry| else IndexOfFrom(entry, endTag, from);
    if found == -1 then |entry| else found
  }

  /** What `parseActivity` makes of one entry. */
  datatype EntryOutcome =
    | Added(workout: Workout)       // a supported kind, every number read: appended
    | Unsupported(calories: real)   // an unknown name: nothing appended
    | Rejected                      // a NumberFormatException, caught: nothing at all happens

  /** The number parsing of `parseActivity` for one entry. */
  function ParseEntry(nf: Numerals, entry: string): EntryOutcome
  {
    var name := ExtractField(entry, "Name: ", "Burned calories:");
    var calories := ParseDouble(nf, Trim(ExtractField(entry, "Burned calories: ", "Duration:")));
    if calories.None? then Rejected
    else if EqualsIgnoreCase(name, "Running") || EqualsIgnoreCase(name, "Cycling") then
      var running := EqualsIgnoreCase(name, "Running");
      var duration := ParseDouble(nf, Trim(ExtractField(entry, "Duration: ",
                        if running then "Distance ran:" else "Distance cycled:")));
      var distance := ParseDouble(nf, Trim(Replace(ExtractField(entry,
                        if running then "Distance ran: " else "Distance cycled: ",
                        if running then "Average speed:" else "Maximum speed:"), " km", "")));
      var speed := ParseDouble(nf, Trim(Replace(ExtractField(entry,
                     if running then "Average speed: " else "Maximum speed: ", ""), " km/h", "")));
      if duration.None? || distance.None? || speed.None? then Rejected
      else Added(Workout(name, calories.value, duration.value, distance.value, speed.value))
    else if EqualsIgnoreCase(name, "Rope Jumping") then
      var duration := ParseDouble(nf, Trim(ExtractField(entry, "Duration: ", "Repetitions:")));
      var repetitions := ParseInt(Trim(ExtractField(entry, "Repetitions: ", "")));
      if duration.None? || repetitions.None? then Rejected
      else Added(Workout(name, calories.value, duration.value, repetitions.value as real, 0.0))
    else
      Unsupported(calories.value)
  }

  /** The screen's state while loading, or the uncaught exception that ends it. */
  datatype Loading =
    | Loaded(workouts: seq<Workout>, mostIntense: Option<Workout>)
    | Crashed

  /**
   * One entry's effect: a parsed workout is appended; then, unless the entry was
   * rejected, when there is no most intense workout yet or the entry burned more,
   * the LAST workout of the list becomes the most intense one (for an
   * unsupported entry that is the previous workout, and with an empty list the
   * lookup throws).
   */
  function ApplyEntry(st: Loading, outcome: EntryOutcome): Loading
  {
    match st
    case Crashed => Crashed
    case Loaded(ws, most) =>
      match outcome
      case Rejected => st
      case Added(w) =>
        if most.None? || w.caloriesBurned > most.value.caloriesBurned then Loaded(ws + [w], Some(w))
        else Loaded(ws + [w], most)
      case Unsupported(c) =>
        if most.None? || c > most.value.caloriesBurned then
          (if |ws| == 0 then Crashed else Loaded(ws, Some(ws[|ws| - 1])))
        else st
  }

  /** The entries of one line, each parsed on its own. */
  function ParseAll(nf: Numerals, entries: seq<string>): (r: seq<EntryOutcome>)
    ensures |r| == |entries|
  {
    if |entries| == 0 then [] else ParseAll(nf, entries[..|entries| - 1]) + [ParseEntry(nf, entries[|entries| - 1])]
  }

  /** The effect of a line's parsed entries, applied in order. */
  function ApplyOutcomes(st: Loading, outcomes: seq<EntryOutcome>): Loading
  {
    if |outcomes| == 0 then st
    else ApplyEntry(ApplyOutcomes(st, outcomes[..|outcomes| - 1]), outcomes[|outcomes| - 1])
  }

  /**
   * One line of the trainings file: an empty line is skipped, a line whose
   * `split(";")` is empty throws, a line of another user is skipped, and a
   * line of the user without a second field throws.
   */
  function ApplyLine(nf: Numerals, userUuid: string, st: Loading, line: string): Loading
  {
    if st.Crashed? || line == "" then st
    else
      var parts := Split(line, ';');
      if |parts| == 0 then Crashed
      else if parts[0] != userUuid then st
      else if |parts| < 2 then Crashed
      else ApplyOutcomes(st, ParseAll(nf, Split(parts[1], '~')))
  }

  function ApplyLines(nf: Numerals, userUuid: string, st: Loading, lines: seq<string>): Loading
  {
    if |lines| == 0 then st
    else ApplyLine(nf, userUuid, ApplyLines(nf, userUuid, st, lines[..|lines| - 1]), lines[|lines| - 1])
  }

  /** `loadWorkoutDataFromFile`: a missing file leaves the screen empty. */
  function LoadWorkoutData(nf: Numerals, userUuid: string, file: Option<seq<string>>): Loading
  {
    if file.None? then Loaded([], None) else ApplyLines(nf, userUuid, Loaded([], None), file.value)
  }

  // ----- statistics over the parsed workouts -----

  function WorkoutDuration(w: Workout): real { w.duration }
  function WorkoutCalories(w: Workout): real { w.caloriesBurned }
  function WorkoutDurationKey(w: Workout): JDouble { Finite(w.duration) }
  function WorkoutCaloriesKey(w: Workout): JDouble { Finite(w.caloriesBurned) }

  /** `average().orElse(0.0)` of the durations. */
  function AverageActivityTime(ws: seq<Workout>): (r: real)
    ensures |ws| > 0 ==> r * |ws| as real == SumOf(ws, WorkoutDuration)
    ensures |ws| == 0 ==> r == 0.0
  {
    if |ws| == 0 then 0.0 else SumOf(ws, WorkoutDuration) / |ws| as real
  }

  /** `average().orElse(0.0)` of the calories. */
  function AverageActivityCalories(ws: seq<Workout>): (r: real)
    ensures |ws| > 0 ==> r * |ws| as real == SumOf(ws, WorkoutCalories)
    ensures |ws| == 0 ==> r == 0.0
  {
    if |ws| == 0 then 0.0 else SumOf(ws, WorkoutCalories) / |ws| as real
  }

  /** `sum()` of the durations: the average times the count, nothing for no workouts. */
  function TotalActivityTime(ws: seq<Workout>): (r: real)
    ensures |ws| > 0 ==> r == AverageActivityTime(ws) * |ws| as real
    ensures |ws| == 0 ==> r == 0.0
  {
    SumOf(ws, WorkoutDuration)
  }

  /** `sum()` of the calories: the average times the count, nothing for no workouts. */
  function TotalBurnedCalories(ws: seq<Workout>): (r: real)
    ensures |ws| > 0 ==> r == AverageActivityCalories(ws) * |ws| as real
    ensures |ws| == 0 ==> r == 0.0
  {
    SumOf(ws, WorkoutCalories)
  }

  /** The totals of two runs of workouts, one after the other, add up. */
  lemma TotalsOfSplit(ws: seq<Workout>, vs: seq<Workout>)
    ensures TotalActivityTime(ws + vs) == TotalActivityTime(ws) + TotalActivityTime(vs)
    ensures TotalBurnedCalories(ws + vs) == TotalBurnedCalories(ws) + TotalBurnedCalories(vs)
  {
    SumOfAppend(ws, vs, WorkoutDuration);
    SumOfAppend(ws, vs, WorkoutCalories);
  }

  /** `max(Comparator.comparingDouble(Workout::getDuration)).orElse(null)`. */
  function LongestActivity(ws: seq<Workout>): (r: Option<Workout>)
    ensures r.None? <==> |ws| == 0
    ensures r.Some? ==> exists k :: IsFirstMax(ws, WorkoutDurationKey, k) && r.value == ws[k]
  {
    MaxBy(ws, WorkoutDurationKey)
  }

  /** `min(Comparator.comparingDouble(Workout::getDuration)).orElse(null)`. */
  function ShortestActivity(ws: seq<Workout>): (r: Option<Workout>)
    ensures r.None? <==> |ws| == 0
    ensures r.Some? ==> exists k :: IsFirstMin(ws, WorkoutDurationKey, k) && r.value == ws[k]
  {
    MinBy(ws, WorkoutDurationKey)
  }

  /** `groupingBy(Workout::getName, summingDouble(Workout::getCaloriesBurned))`, folded left to right. */
  function CaloriesByType(ws: seq<Workout>): map<string, real>
  {
    if |ws| == 0 then map[]
    else
      var m := CaloriesByType(ws[..|ws| - 1]);
      var w := ws[|ws| - 1];
      m[w.name := (if w.name in m then m[w.name] else 0.0) + w.caloriesBurned]
  }

  /** The workouts with exactly the given name, in order. */
  function WithName(ws: seq<Workout>, name: string): (r: seq<Workout>)
    ensures forall i :: 0 <= i < |r| ==> r[i].name == name
  {
    if |ws| == 0 then []
    else WithName(ws[..|ws| - 1], name) + (if ws[|ws| - 1].name == name then [ws[|ws| - 1]] else [])
  }

  /**
   * The chart's bars: a name has a bar exactly when some workout has that
   * name, and its total is the sum of the calories of the workouts with it.
   */
  lemma {:induction false} CaloriesByTypeSums(ws: seq<Workout>, name: string)
    ensures name in CaloriesByType(ws) <==> exists i :: 0 <= i < |ws| && ws[i].name == name
    ensures TotalBurnedCalories(WithName(ws, name)) == if name in CaloriesByType(ws) then CaloriesByType(ws)[name] else 0.0
  {
    if |ws| > 0 {
      var front := ws[..|ws| - 1];
      var w := ws[|ws| - 1];
      var sel := WithName(front, name);
      CaloriesByTypeSums(front, name);
      if w.name == name {
        assert WithName(ws, name) == sel + [w];
        assert (sel + [w])[..|sel + [w]| - 1] == sel;
        assert ws[|ws| - 1].name == name;
      } else {
        assert WithName(ws, name) == sel;
        if name in CaloriesByType(ws) {
          var i :| 0 <= i < |front| && front[i].name == name;
          assert ws[i] == front[i];
        } else {
          forall i | 0 <= i < |ws|
            ensures ws[i].name != name
          {
            if i < |front| {
              assert front[i] == ws[i];
            }
          }
        }
      }
    }
  }

  /** `getRepetitions()`: the stored distance cast to `int` for rope jumping, otherwise 0. */
  function GetRepetitions(w: Workout): (r: Int32)
    ensures !EqualsIgnoreCase(w.name, "Rope Jumping") ==> r == 0
    ensures EqualsIgnoreCase(w.name, "Rope Jumping") && 0.0 <= w.distance < INT_MAX as real ==>
              r as real <= w.distance < r as real + 1.0
  {
    if EqualsIgnoreCase(w.name, "Rope Jumping") then DoubleToInt(w.distance) else 0
  }

  /** The statistics screen's loaded state. */
  class WorkoutStatsScreen {
    var userUuid: string
    var userWorkouts: seq<Workout>
    var mostIntenseWorkout: Option<Workout>

    function State(): Loading
      reads this
    {
      Loaded(userWorkouts, mostIntenseWorkout)
    }

    constructor (userUuid: string)
      ensures this.userUuid == userUuid && State() == Loaded([], None)
    {
      this.userUuid := userUuid;
      userWorkouts := [];
      mostIntenseWorkout := None;
    }

    /** The state change `parseActivity` makes for one parsed entry. */
    method ApplyOutcome(outcome: EntryOutcome) returns (crashed: bool)
      modifies this
      ensures userUuid == old(userUuid)
      ensures ApplyEntry(old(State()), outcome) == (if crashed then Crashed else State())
    {
      crashed := false;
      match outcome
      case Rejected =>
      case Added(w) =>
        userWorkouts := userWorkouts + [w];
        if mostIntenseWorkout.None? || w.caloriesBurned > mostIntenseWorkout.value.caloriesBurned {
          mostIntenseWorkout := Some(userWorkouts[|userWorkouts| - 1]);
        }
      case Unsupported(c) =>
        if mostIntenseWorkout.None? || c > mostIntenseWorkout.value.caloriesBurned {
          if |userWorkouts| == 0 {
            crashed := true;
          } else {
            mostIntenseWorkout := Some(userWorkouts[|userWorkouts| - 1]);
          }
        }
    }

    /** `parseActivity(entry)`: `crashed` reports the uncaught exception. */
    method ParseActivity(nf: Numerals, entry: string) returns (crashed: bool)
      modifies this
      ensures userUuid == old(userUuid)
      ensures ApplyEntry(old(State()), ParseEntry(nf, entry)) == (if crashed then Crashed else State())
    {
      crashed := ApplyOutcome(ParseEntry(nf, entry));
    }

    /** The part of `loadWorkoutDataFromFile` that parses one line's entries in order, stopping at an exception. */
    method ParseEntries(nf: Numerals, entries: seq<string>) returns (crashed: bool)
      modifies this
      ensures userUuid == old(userUuid)
      ensures ApplyOutcomes(old(State()), ParseAll(nf, entries)) == (if crashed then Crashed else State())
    {
      ghost var start := State();
      ghost var outcomes := ParseAll(nf, entries);
      crashed := false;
      var j := 0;
      while j < |entries| && !crashed
        invariant 0 <= j <= |entries| && userUuid == old(userUuid)
        invariant ApplyOutcomes(start, outcomes[..j]) == (if crashed then Crashed else State())
      {
        ApplyOutcomesStep(start, outcomes, j);
        ParseAllAt(nf, entries, j);
        crashed := ParseActivity(nf, entries[j]);
        j := j + 1;
      }
      if crashed {
        CrashedStays(start, outcomes, j);
      } else {
        assert outcomes[..j] == outcomes;
      }
    }

    /** The part of `loadWorkoutDataFromFile` that handles one line of the trainings file. */
    method LoadLine(nf: Numerals, line: string) returns (crashed: bool)
      modifies this
      ensures userUuid == old(userUuid)
      ensures ApplyLine(nf, userUuid, old(State()), line) == (if crashed then Crashed else State())
    {
      crashed := false;
      if line == "" {
        return;
      }
      var parts := Split(line, ';');
      if |parts| == 0 {
        crashed := true;
      } else if parts[0] == userUuid {
        if |parts| < 2 {
          crashed := true;
        } else {
          crashed := ParseEntries(nf, Split(parts[1], '~'));
        }
      }
    }

    /** `loadWorkoutDataFromFile`, starting from a fresh screen; `crashed` reports an uncaught exception. */
    method LoadWorkoutDataFromFile(nf: Numerals, file: Option<seq<string>>) returns (crashed: bool)
      requires State() == Loaded([], None)
      modifies this
      ensures LoadWorkoutData(nf, userUuid, file) == (if crashed then Crashed else State())
    {
      crashed := false;
      if file.None? {
        return;
      }
      var lines := file.value;
      var i := 0;
      while i < |lines|
        invariant 0 <= i <= |lines| && userUuid == old(userUuid)
        invariant ApplyLines(nf, userUuid, Loaded([], None), lines[..i]) == (if crashed then Crashed else State())
      {
        assert lines[..i + 1][..i] == lines[..i];
        if !crashed {
          crashed := LoadLine(nf, lines[i]);
        }
        i := i + 1;
      }
      assert lines[..|lines|] == lines;
    }
  }

  /** Parsing two runs of entries is parsing each. */
  lemma {:induction false} ParseAllAppend(nf: Numerals, xs: seq<string>, ys: seq<string>)
    ensures ParseAll(nf, xs + ys) == ParseAll(nf, xs) + ParseAll(nf, ys)
    decreases |ys|
  {
    if |ys| == 0 {
      assert xs + ys == xs;
    } else {
      assert (xs + ys)[..|xs + ys| - 1] == xs + ys[..|ys| - 1];
      ParseAllAppend(nf, xs, ys[..|ys| - 1]);
    }
  }

  /** The `j`-th parsed outcome of a line is the parse of its `j`-th entry. */
  lemma {:induction false} ParseAllAt(nf: Numerals, entries: seq<string>, j: nat)
    requires j < |entries|
    ensures ParseAll(nf, entries)[j] == ParseEntry(nf, entries[j])
  {
    if j < |entries| - 1 {
      assert entries[..|entries| - 1][j] == entries[j];
      ParseAllAt(nf, entries[..|entries| - 1], j);
    }
  }

  /** One more outcome applied. */
  lemma ApplyOutcomesStep(st: Loading, outcomes: seq<EntryOutcome>, j: nat)
    requires j < |outcomes|
    ensures ApplyOutcomes(st, outcomes[..j + 1]) == ApplyEntry(ApplyOutcomes(st, outcomes[..j]), outcomes[j])
  {
    assert outcomes[..j + 1][..j] == outcomes[..j];
  }

  /** Once loading has crashed, the remaining outcomes change nothing. */
  lemma {:induction false} CrashedStays(st: Loading, outcomes: seq<EntryOutcome>, j: nat)
    requires j <= |outcomes| && ApplyOutcomes(st, outcomes[..j]) == Crashed
    ensures ApplyOutcomes(st, outcomes) == Crashed
    decreases |outcomes| - j
  {
    if j < |outcomes| {
      assert outcomes[..j + 1][..j] == outcomes[..j];
      CrashedStays(st, outcomes, j + 1);
    } else {
      assert outcomes[..j] == outcomes;
    }
  }

  /** Applying two runs of outcomes is applying the first, then the second. */
  lemma {:induction false} ApplyOutcomesAppend(st: Loading, xs: seq<EntryOutcome>, ys: seq<EntryOutcome>)
    ensures ApplyOutcomes(st, xs + ys) == ApplyOutcomes(ApplyOutcomes(st, xs), ys)
    decreases |ys|
  {
    if |ys| == 0 {
      assert xs + ys == xs;
    } else {
      assert (xs + ys)[..|xs + ys| - 1] == xs + ys[..|ys| - 1];
      ApplyOutcomesAppend(st, xs, ys[..|ys| - 1]);
    }
  }

  /** Once loading has crashed, further entries change nothing. */
  lemma {:induction false} ApplyOutcomesOfCrashed(outcomes: seq<EntryOutcome>)
    ensures ApplyOutcomes(Crashed, outcomes) == Crashed
  {
    if |outcomes| > 0 {
      ApplyOutcomesOfCrashed(outcomes[..|outcomes| - 1]);
    }
  }

  // ----- the most intense workout -----

  /** Every entry was a supported kind with all its numbers read. */
  predicate AllAdded(outcomes: seq<EntryOutcome>)
  {
    forall k :: 0 <= k < |outcomes| ==> outcomes[k].Added?
  }

  /** The workouts those entries add, in order. */
  function AddedWorkouts(outcomes: seq<EntryOutcome>): (ws: seq<Workout>)
    requires AllAdded(outcomes)
    ensures |ws| == |outcomes| && forall k :: 0 <= k < |outcomes| ==> ws[k] == outcomes[k].workout
  {
    if |outcomes| == 0 then []
    else
      var front := outcomes[..|outcomes| - 1];
      assert AllAdded(front) by {
        forall k | 0 <= k < |front| ensures front[k].Added? {
          assert front[k] == outcomes[k];
        }
      }
      AddedWorkouts(front) + [outcomes[|outcomes| - 1].workout]
  }

  /**
   * The most intense workout is missing exactly when there are no workouts,
   * and is otherwise the first of those with the most calories.
   */
  ghost predicate FirstMostIntense(ws: seq<Workout>, most: Option<Workout>)
  {
    && (most.None? <==> |ws| == 0)
    && (most.Some? ==> exists k :: IsFirstMax(ws, WorkoutCaloriesKey, k) && most.value == ws[k])
  }

  /** One added workout keeps the first maximum: it replaces it only when it burned strictly more. */
  lemma MostIntenseStep(ws: seq<Workout>, most: Option<Workout>, w: Workout)
    requires FirstMostIntense(ws, most)
    ensures var st := ApplyEntry(Loaded(ws, most), Added(w));
      st.Loaded? && st.workouts == ws + [w] && FirstMostIntense(ws + [w], st.mostIntense)
  {
    var all := ws + [w];
    var n := |ws|;
    if most.None? {
      assert all == [w];
      assert IsFirstMax(all, WorkoutCaloriesKey, 0);
    } else {
      var k0 :| IsFirstMax(ws, WorkoutCaloriesKey, k0) && most.value == ws[k0];
      if w.caloriesBurned > ws[k0].caloriesBurned {
        forall j | 0 <= j < n
          ensures Compare(WorkoutCaloriesKey(all[j]), WorkoutCaloriesKey(all[n])) < 0
        {
          assert all[j] == ws[j];
          assert Compare(WorkoutCaloriesKey(ws[j]), WorkoutCaloriesKey(ws[k0])) <= 0;
        }
        assert IsFirstMax(all, WorkoutCaloriesKey, n);
      } else {
        forall j | 0 <= j < |all|
          ensures Compare(WorkoutCaloriesKey(all[j]), WorkoutCaloriesKey(all[k0])) <= 0
        {
          if j < n {
            assert all[j] == ws[j];
          }
        }
        forall j | 0 <= j < k0
          ensures Compare(WorkoutCaloriesKey(all[j]), WorkoutCaloriesKey(all[k0])) < 0
        {
          assert all[j] == ws[j];
        }
        assert IsFirstMax(all, WorkoutCaloriesKey, k0);
      }
    }
  }

  /**
   * From an empty screen, entries that all add a workout leave no most
   * intense workout exactly when there were none, and otherwise the first of
   * the workouts with the most calories.
   */
  lemma {:induction false} MostIntenseIsFirstMax(outcomes: seq<EntryOutcome>)
    requires AllAdded(outcomes)
    ensures var st := ApplyOutcomes(Loaded([], None), outcomes);
      && st.Loaded? && st.workouts == AddedWorkouts(outcomes)
      && FirstMostIntense(st.workouts, st.mostIntense)
  {
    if |outcomes| > 0 {
      var front := outcomes[..|outcomes| - 1];
      var w := outcomes[|outcomes| - 1].workout;
      assert AllAdded(front) by {
        forall k | 0 <= k < |front| ensures front[k].Added? {
          assert front[k] == outcomes[k];
        }
      }
      MostIntenseIsFirstMax(front);
      var st0 := ApplyOutcomes(Loaded([], None), front);
      MostIntenseStep(st0.workouts, st0.mostIntense, w);
    }
  }

  /**
   * As written, an entry of an unsupported kind that burned more makes the
   * last workout read the most intense, even when an earlier one burned more.
   */
  lemma UnsupportedPromotesLast(w1: Workout, w2: Workout, c: real)
    requires w2.caloriesBurned < w1.caloriesBurned < c
    ensures ApplyOutcomes(Loaded([], None), [Added(w1), Added(w2), Unsupported(c)]) == Loaded([w1, w2], Some(w2))
    ensures !IsFirstMax([w1, w2], WorkoutCaloriesKey, 1)
  {
    var os := [Added(w1), Added(w2), Unsupported(c)];
    var empty := Loaded([], None);
    assert os[..1] == [Added(w1)] && os[..1][..0] == [];
    assert ApplyOutcomes(empty, os[..1]) == Loaded([w1], Some(w1));
    assert os[..2][..1] == os[..1] && os[..3] == os;
    assert [w1] + [w2] == [w1, w2];
    assert ApplyOutcomes(empty, os[..2]) == Loaded([w1, w2], Some(w1));
    assert Compare(WorkoutCaloriesKey([w1, w2][0]), WorkoutCaloriesKey([w1, w2][1])) > 0;
  }
}
