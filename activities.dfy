// Activities: the abstract Activity record with its three concrete kinds
// (running, cycling, rope jumping), the one-line summary each writes into the
// trainings file, and the mutable activity object with its setters.

module Activities {
  import opened JavaText
  import opened JavaNumbers

  /** The fields a concrete activity adds to the common ones. */
  datatype Details =
    | Running(coveredDistance: real, averageSpeed: real)
    | Cycling(coveredDistance: real, maxSpeed: real)
    | RopeJumping(numberOfRepetitions: Int32)

  /** An activity's value; times are instants counted in seconds. */
  datatype Activity = Activity(
    id: Int32,
    name: string,
    burnedCalories: real,
    duration: real,
    startTime: int,
    endTime: int,
    details: Details)

  /** The name the training form gives each kind, and the one the statistics screen recognises. */
  function KindName(d: Details): string
  {
    match d
    case Running(_, _) => "Running"
    case Cycling(_, _) => "Cycling"
    case RopeJumping(_) => "Rope Jumping"
  }

  /** `Duration.between(start, end).toMinutes()`: whole minutes, truncated toward zero. */
  function MinutesBetween(start: int, end: int): (r: int)
    ensures end >= start ==> 0 <= (end - start) - 60 * r < 60
    ensures end < start ==> -60 < (end - start) - 60 * r <= 0
  {
    JDivRem(end - start, 60);
    JDiv(end - start, 60)
  }

  /** The activity after `calculateDuration()`: its duration recomputed from its times. */
  function WithCalculatedDuration(a: Activity): Activity
  {
    a.(duration := MinutesBetween(a.startTime, a.endTime) as real)
  }

  /** An activity ending a whole number of minutes after it starts has that many minutes as its calculated duration. */
  lemma CalculatedDurationOfPlusMinutes(a: Activity, minutes: int)
    requires a.endTime == a.startTime + 60 * minutes
    ensures WithCalculatedDuration(a).duration == minutes as real
    ensures WithCalculatedDuration(a) == a <==> a.duration == minutes as real
  {
    assert MinutesBetween(a.startTime, a.endTime) == minutes;
  }

  /** `calculateCaloriesPerMinute()`: burned calories over stored duration, as a double division. */
  function CaloriesPerMinute(a: Activity): (r: JDouble)
    ensures a.duration != 0.0 ==> r == Finite(a.burnedCalories / a.duration)
    ensures a.duration == 0.0 ==> !r.Finite?
  {
    Divide(a.burnedCalories, a.duration)
  }

  // ----- the summary line (getAllInfo) -----

  const NAME_LABEL := "Name: "
  const CALORIES_LABEL := " Burned calories: "
  const DURATION_LABEL := " Duration: "
  const DISTANCE_RAN_LABEL := " Distance ran: "
  const AVERAGE_SPEED_LABEL := " km Average speed: "
  const DISTANCE_CYCLED_LABEL := " Distance cycled: "
  const MAXIMUM_SPEED_LABEL := " km Maximum speed: "
  const SPEED_UNIT := " km/h"
  const REPETITIONS_LABEL := " Repetitions: "

  /** The part of the summary every activity writes. */
  function BaseInfo(nf: Numerals, a: Activity): string
  {
    NAME_LABEL + a.name + CALORIES_LABEL + nf.show(a.burnedCalories) + DURATION_LABEL + nf.show(a.duration)
  }

  /** The part of the summary a kind adds. */
  function DetailsInfo(nf: Numerals, d: Details): string
  {
    match d
    case Running(distance, speed) =>
      DISTANCE_RAN_LABEL + nf.show(distance) + AVERAGE_SPEED_LABEL + nf.show(speed) + SPEED_UNIT
    case Cycling(distance, speed) =>
      DISTANCE_CYCLED_LABEL + nf.show(distance) + MAXIMUM_SPEED_LABEL + nf.show(speed) + SPEED_UNIT
    case RopeJumping(repetitions) =>
      REPETITIONS_LABEL + IntToString(repetitions)
  }

  /** `getAllInfo()` of a running, cycling or rope-jumping activity. */
  function GetAllInfo(nf: Numerals, a: Activity): string
  {
    BaseInfo(nf, a) + DetailsInfo(nf, a.details)
  }

  /** The characters the trainings file uses as separators. */
  predicate IsFileSeparator(c: char)
  {
    c == ';' || c == '~'
  }

  /** Every double the summary of `a` writes has a text that reads back to it. */
  predicate NumbersRoundTrip(nf: Numerals, a: Activity)
  {
    && RoundTrips(nf, a.burnedCalories)
    && RoundTrips(nf, a.duration)
    && match a.details
       case Running(distance, speed) => RoundTrips(nf, distance) && RoundTrips(nf, speed)
       case Cycling(distance, speed) => RoundTrips(nf, distance) && RoundTrips(nf, speed)
       case RopeJumping(_) => true
  }

  /**
   * A summary holds no file separator unless the name does, so it can be
   * stored as one `~`-separated entry of a `;`-separated line.
   */
  lemma InfoFreeOfSeparator(nf: Numerals, a: Activity, c: char)
    requires NumbersRoundTrip(nf, a) && IsFileSeparator(c) && c !in a.name
    ensures c !in GetAllInfo(nf, a)
    ensures |GetAllInfo(nf, a)| > 0
  {
    LabelsFreeOfSeparator(c);
    assert c !in nf.show(a.burnedCalories) && c !in nf.show(a.duration);
    match a.details
    case Running(distance, speed) =>
      assert c !in nf.show(distance) && c !in nf.show(speed);
    case Cycling(distance, speed) =>
      assert c !in nf.show(distance) && c !in nf.show(speed);
    case RopeJumping(repetitions) =>
      IntToStringChars(repetitions);
  }

  /** No label of a summary holds a file separator. */
  lemma LabelsFreeOfSeparator(c: char)
    requires IsFileSeparator(c)
    ensures c !in NAME_LABEL && c !in CALORIES_LABEL && c !in DURATION_LABEL
    ensures c !in DISTANCE_RAN_LABEL && c !in AVERAGE_SPEED_LABEL && c !in DISTANCE_CYCLED_LABEL
    ensures c !in MAXIMUM_SPEED_LABEL && c !in SPEED_UNIT && c !in REPETITIONS_LABEL
  {
    BaseLabelsFreeOfSeparator(c);
    DetailLabelsFreeOfSeparator(c);
  }

  lemma BaseLabelsFreeOfSeparator(c: char)
    requires IsFileSeparator(c)
    ensures c !in NAME_LABEL && c !in CALORIES_LABEL && c !in DURATION_LABEL
  {
  }

  lemma DetailLabelsFreeOfSeparator(c: char)
    requires IsFileSeparator(c)
    ensures c !in DISTANCE_RAN_LABEL && c !in AVERAGE_SPEED_LABEL && c !in DISTANCE_CYCLED_LABEL
    ensures c !in MAXIMUM_SPEED_LABEL && c !in SPEED_UNIT && c !in REPETITIONS_LABEL
  {
    RunningLabelsFreeOfSeparator(c);
    CyclingLabelsFreeOfSeparator(c);
  }

  lemma RunningLabelsFreeOfSeparator(c: char)
    requires IsFileSeparator(c)
    ensures c !in DISTANCE_RAN_LABEL && c !in AVERAGE_SPEED_LABEL && c !in SPEED_UNIT
  {
  }

  lemma CyclingLabelsFreeOfSeparator(c: char)
    requires IsFileSeparator(c)
    ensures c !in DISTANCE_CYCLED_LABEL && c !in MAXIMUM_SPEED_LABEL && c !in REPETITIONS_LABEL
  {
  }

  // ----- the activity object -----

  /** A running, cycling or rope-jumping activity object; its setters change one field each. */
  class ActivityObject {
    var id: Int32
    var name: string
    var burnedCalories: real
    var duration: real
    var startTime: int
    var endTime: int
    var details: Details

    function Value(): Activity
      reads this
    {
      Activity(id, name, burnedCalories, duration, startTime, endTime, details)
    }

    constructor RunningActivity(id: Int32, name: string, burnedCalories: real, duration: real,
                                startTime: int, endTime: int, coveredDistance: real, averageSpeed: real)
      ensures Value() == Activity(id, name, burnedCalories, duration, startTime, endTime,
                                  Running(coveredDistance, averageSpeed))
    {
      this.id := id;
      this.name := name;
      this.burnedCalories := burnedCalories;
      this.duration := duration;
      this.startTime := startTime;
      this.endTime := endTime;
      this.details := Running(coveredDistance, averageSpeed);
    }

    constructor CyclingActivity(id: Int32, name: string, burnedCalories: real, duration: real,
                                startTime: int, endTime: int, coveredDistance: real, maxSpeed: real)
      ensures Value() == Activity(id, name, burnedCalories, duration, startTime, endTime,
                                  Cycling(coveredDistance, maxSpeed))
    {
      this.id := id;
      this.name := name;
      this.burnedCalories := burnedCalories;
      this.duration := duration;
      this.startTime := startTime;
      this.endTime := endTime;
      this.details := Cycling(coveredDistance, maxSpeed);
    }

    constructor RopeJumpingActivity(id: Int32, name: string, burnedCalories: real, duration: real,
                                    startTime: int, endTime: int, numberOfRepetitions: Int32)
      ensures Value() == Activity(id, name, burnedCalories, duration, startTime, endTime,
                                  RopeJumping(numberOfRepetitions))
    {
      this.id := id;
      this.name := name;
      this.burnedCalories := burnedCalories;
      this.duration := duration;
      this.startTime := startTime;
      this.endTime := endTime;
      this.details := RopeJumping(numberOfRepetitions);
    }

    method SetId(id: Int32)
      modifies this
      ensures Value() == old(Value()).(id := id)
    {
      this.id := id;
    }

    method SetName(name: string)
      modifies this
      ensures Value() == old(Value()).(name := name)
    {
      this.name := name;
    }

    method SetBurnedCalories(burnedCalories: real)
      modifies this
      ensures Value() == old(Value()).(burnedCalories := burnedCalories)
    {
      this.burnedCalories := burnedCalories;
    }

    method SetStartTime(startTime: int)
      modifies this
      ensures Value() == old(Value()).(startTime := startTime)
    {
      this.startTime := startTime;
    }

    method SetEndTime(endTime: int)
      modifies this
      ensures Value() == old(Value()).(endTime := endTime)
    {
      this.endTime := endTime;
    }

    /** Only running and cycling activities have a covered distance. */
    method SetCoveredDistance(coveredDistance: real)
      requires details.Running? || details.Cycling?
      modifies this
      ensures Value() == old(Value()).(details := old(details).(coveredDistance := coveredDistance))
    {
      details := details.(coveredDistance := coveredDistance);
    }

    method SetAverageSpeed(averageSpeed: real)
      requires details.Running?
      modifies this
      ensures Value() == old(Value()).(details := Running(old(details).coveredDistance, averageSpeed))
    {
      details := details.(averageSpeed := averageSpeed);
    }

    method SetMaxSpeed(maxSpeed: real)
      requires details.Cycling?
      modifies this
      ensures Value() == old(Value()).(details := Cycling(old(details).coveredDistance, maxSpeed))
    {
      details := details.(maxSpeed := maxSpeed);
    }

    method SetNumberOfRepetitions(numberOfRepetitions: Int32)
      requires details.RopeJumping?
      modifies this
      ensures Value() == old(Value()).(details := RopeJumping(numberOfRepetitions))
    {
      details := RopeJumping(numberOfRepetitions);
    }

    /** `calculateDuration()`: stores and returns the whole minutes between the start and end times. */
    method CalculateDuration() returns (calculated: real)
      modifies this
      ensures Value() == WithCalculatedDuration(old(Value()))
      ensures calculated == Value().duration
    {
      calculated := MinutesBetween(startTime, endTime) as real;
      duration := calculated;
    }
  }
}
