// The standard user: profile fields, a weight history, a list of activity
// objects, and the statistics computed over that list.

module StandardUsers {
  import opened JavaNumbers
  import opened Activities
  import opened Reductions

  /** `calculateBMI(weight, height)`: weight over height squared, as a double division. */
  function CalculateBmi(weight: real, height: real): (r: JDouble)
    ensures height != 0.0 ==> r == Finite(weight / (height * height))
    ensures height == 0.0 ==> (weight > 0.0 ==> r == PosInf) && (weight == 0.0 ==> r == NaN)
  {
    assert height != 0.0 ==> height * height > 0.0 by {
      if height < 0.0 {
        assert height * height == (-height) * (-height);
      }
    }
    Divide(weight, height * height)
  }

  /** With a zero height the BMI is infinite or NaN, never a number. */
  lemma BmiOfZeroHeight(weight: real)
    ensures !CalculateBmi(weight, 0.0).Finite?
  {
  }

  // ----- statistics over activity values -----

  function DurationOf(a: Activity): real { a.duration }
  function CaloriesOf(a: Activity): real { a.burnedCalories }
  function DurationKey(a: Activity): JDouble { Finite(a.duration) }
  function RateKey(a: Activity): JDouble { CaloriesPerMinute(a) }

  /** Every activity with its duration recomputed from its times. */
  function CalculateDurations(xs: seq<Activity>): (r: seq<Activity>)
    ensures |r| == |xs| && forall i :: 0 <= i < |xs| ==> r[i] == WithCalculatedDuration(xs[i])
  {
    if |xs| == 0 then [] else CalculateDurations(xs[..|xs| - 1]) + [WithCalculatedDuration(xs[|xs| - 1])]
  }

  /** The values of a list of activity objects. */
  function Values(xs: seq<ActivityObject>): (r: seq<Activity>)
    reads xs
    ensures |r| == |xs| && forall i :: 0 <= i < |xs| ==> r[i] == xs[i].Value()
  {
    if |xs| == 0 then [] else Values(xs[..|xs| - 1]) + [xs[|xs| - 1].Value()]
  }

  /** Extending a list of activities by one adds its duration to the sum. */
  lemma SumOfDurationsSnoc(xs: seq<Activity>, a: Activity)
    ensures SumOf(xs + [a], DurationOf) == SumOf(xs, DurationOf) + a.duration
  {
    assert (xs + [a])[..|xs|] == xs;
  }

  /** The total of the recalculated durations of `xs`. */
  function TotalCalculatedMinutes(xs: seq<Activity>): real
  {
    SumOf(CalculateDurations(xs), DurationOf)
  }

  lemma TotalCalculatedMinutesSnoc(xs: seq<Activity>, a: Activity)
    ensures TotalCalculatedMinutes(xs + [a]) == TotalCalculatedMinutes(xs) + WithCalculatedDuration(a).duration
  {
    assert CalculateDurations(xs + [a]) == CalculateDurations(xs) + [WithCalculatedDuration(a)];
    SumOfDurationsSnoc(CalculateDurations(xs), WithCalculatedDuration(a));
  }

  lemma TotalCalculatedMinutesStep(xs: seq<Activity>, i: nat)
    requires i < |xs|
    ensures TotalCalculatedMinutes(xs[..i + 1]) == TotalCalculatedMinutes(xs[..i]) + WithCalculatedDuration(xs[i]).duration
  {
    assert xs[..i + 1] == xs[..i] + [xs[i]];
    TotalCalculatedMinutesSnoc(xs[..i], xs[i]);
  }

  /** Objects listed twice held one value at the start. */
  ghost predicate SameValueWhenShared(xs: seq<ActivityObject>, before: seq<Activity>)
    requires |xs| == |before|
  {
    forall k, j :: 0 <= k < |xs| && 0 <= j < |xs| && xs[k] == xs[j] ==> before[k] == before[j]
  }

  /**
   * Some objects' durations recalculated: each holds its first or its recalculated
   * value, and the first `i` hold the recalculated one.
   */
  ghost predicate RecalculatedUpTo(xs: seq<ActivityObject>, before: seq<Activity>, i: nat)
    reads xs
    requires |xs| == |before| && i <= |xs|
  {
    && (forall k :: 0 <= k < |xs| ==> xs[k].Value() == before[k] || xs[k].Value() == WithCalculatedDuration(before[k]))
    && (forall k :: 0 <= k < i ==> xs[k].Value() == WithCalculatedDuration(before[k]))
  }

  /**
   * One step of `calculateAverageActivityTime`: the i-th object's duration
   * is recalculated; an object listed twice holds one value, so the others
   * keep theirs.
   */
  method RecalculateAt(xs: seq<ActivityObject>, i: nat, ghost before: seq<Activity>) returns (d: real)
    requires i < |xs| == |before|
    requires SameValueWhenShared(xs, before) && RecalculatedUpTo(xs, before, i)
    modifies xs[i]
    ensures RecalculatedUpTo(xs, before, i + 1)
    ensures d == WithCalculatedDuration(before[i]).duration
  {
    d := xs[i].CalculateDuration();
    forall k | 0 <= k < |xs|
      ensures xs[k].Value() == before[k] || xs[k].Value() == WithCalculatedDuration(before[k])
      ensures k <= i ==> xs[k].Value() == WithCalculatedDuration(before[k])
    {
      if xs[k] == xs[i] {
        assert before[k] == before[i];
      } else {
        assert xs[k].Value() == old(xs[k].Value());
      }
    }
  }

  /** The loop of `calculateAverageActivityTime`: every duration recalculated and summed. */
  method RecalculateAll(xs: seq<ActivityObject>, ghost before: seq<Activity>) returns (total: real)
    requires |xs| == |before| && SameValueWhenShared(xs, before) && RecalculatedUpTo(xs, before, 0)
    modifies xs
    ensures RecalculatedUpTo(xs, before, |xs|)
    ensures total == TotalCalculatedMinutes(before)
  {
    total := 0.0;
    var i := 0;
    while i < |xs|
      invariant 0 <= i <= |xs|
      invariant RecalculatedUpTo(xs, before, i)
      invariant total == TotalCalculatedMinutes(before[..i])
    {
      var d := RecalculateAt(xs, i, before);
      TotalCalculatedMinutesStep(before, i);
      total := total + d;
      i := i + 1;
    }
    assert before[..i] == before;
  }

  /** With every object recalculated, the values are the recalculated first values. */
  lemma AllRecalculated(xs: seq<ActivityObject>, before: seq<Activity>)
    requires |xs| == |before| && RecalculatedUpTo(xs, before, |xs|)
    ensures Values(xs) == CalculateDurations(before)
  {
  }

  /** A profile snapshot of the user's scalar fields. */
  datatype Profile = Profile(id: Int32, name: string, weight: real, height: real, age: Int32, gender: string)

  /** A user with profile data, a weight history and activity objects. */
  class StandardUser {
    var id: Int32
    var name: string
    var weight: real
    var height: real
    var age: Int32
    var gender: string
    var weightHistory: seq<real>
    var activitiesList: seq<ActivityObject>

    function GetProfile(): Profile
      reads this
    {
      Profile(id, name, weight, height, age, gender)
    }

    constructor (id: Int32, name: string, weight: real, height: real, age: Int32, gender: string,
                 weightHistory: seq<real>, activitiesList: seq<ActivityObject>)
      ensures GetProfile() == Profile(id, name, weight, height, age, gender)
      ensures this.weightHistory == weightHistory && this.activitiesList == activitiesList
    {
      this.id := id;
      this.name := name;
      this.weight := weight;
      this.height := height;
      this.age := age;
      this.gender := gender;
      this.weightHistory := weightHistory;
      this.activitiesList := activitiesList;
    }

    method SetId(id: Int32)
      modifies this
      ensures GetProfile() == old(GetProfile()).(id := id)
      ensures weightHistory == old(weightHistory) && activitiesList == old(activitiesList)
    {
      this.id := id;
    }

    method SetName(name: string)
      modifies this
      ensures GetProfile() == old(GetProfile()).(name := name)
      ensures weightHistory == old(weightHistory) && activitiesList == old(activitiesList)
    {
      this.name := name;
    }

    method SetWeight(weight: real)
      modifies this
      ensures GetProfile() == old(GetProfile()).(weight := weight)
      ensures weightHistory == old(weightHistory) && activitiesList == old(activitiesList)
    {
      this.weight := weight;
    }

    method SetHeight(height: real)
      modifies this
      ensures GetProfile() == old(GetProfile()).(height := height)
      ensures weightHistory == old(weightHistory) && activitiesList == old(activitiesList)
    {
      this.height := height;
    }

    method SetAge(age: Int32)
      modifies this
      ensures GetProfile() == old(GetProfile()).(age := age)
      ensures weightHistory == old(weightHistory) && activitiesList == old(activitiesList)
    {
      this.age := age;
    }

    method SetGender(gender: string)
      modifies this
      ensures GetProfile() == old(GetProfile()).(gender := gender)
      ensures weightHistory == old(weightHistory) && activitiesList == old(activitiesList)
    {
      this.gender := gender;
    }

    /** The current values of the user's activities. */
    function Activities(): seq<Activity>
      reads this, activitiesList
    {
      Values(activitiesList)
    }

    /**
     * `calculateAverageActivityTime()`: recomputes and stores every activity's
     * duration (an object listed twice is recomputed twice, to the same value)
     * and divides their sum by the number of activities; NaN when there are none.
     */
    method CalculateAverageActivityTime() returns (average: JDouble)
      modifies activitiesList
      ensures Values(activitiesList) == CalculateDurations(old(Values(activitiesList)))
      ensures average == Divide(SumOf(Values(activitiesList), DurationOf), |activitiesList| as real)
      ensures |activitiesList| == 0 ==> average == NaN
      ensures |activitiesList| > 0 ==> average == Finite(CalculateTotalActivityTime() / |activitiesList| as real)
    {
      var xs := activitiesList;
      ghost var before := Values(xs);
      assert SameValueWhenShared(xs, before);
      assert RecalculatedUpTo(xs, before, 0);
      var total := RecalculateAll(xs, before);
      AllRecalculated(xs, before);
      average := Divide(total, |xs| as real);
    }

    /** `calculateAverageActivityCalories()`: NaN when there are no activities. */
    function CalculateAverageActivityCalories(): (r: JDouble)
      reads this, activitiesList
      ensures |activitiesList| > 0 ==> r == Finite(SumOf(Activities(), CaloriesOf) / |activitiesList| as real)
      ensures |activitiesList| == 0 ==> r == NaN
    {
      Divide(SumOf(Activities(), CaloriesOf), |activitiesList| as real)
    }

    /** `calculateTotalActivityTime()`: the sum of the stored durations, left unchanged; nothing for no activities. */
    function CalculateTotalActivityTime(): (r: real)
      reads this, activitiesList
      ensures |activitiesList| == 0 ==> r == 0.0
    {
      SumOf(Activities(), DurationOf)
    }

    /** `calculateTotalBurnedCalories()`: the mean calories is this total over the count. */
    function CalculateTotalBurnedCalories(): (r: real)
      reads this, activitiesList
      ensures |activitiesList| == 0 ==> r == 0.0
      ensures |activitiesList| > 0 ==> CalculateAverageActivityCalories() == Finite(r / |activitiesList| as real)
    {
      SumOf(Activities(), CaloriesOf)
    }

    /** With no negative duration or calories stored, neither total is negative. */
    lemma TotalsNonNegative()
      requires forall k :: 0 <= k < |activitiesList| ==> activitiesList[k].Value().duration >= 0.0
      requires forall k :: 0 <= k < |activitiesList| ==> activitiesList[k].Value().burnedCalories >= 0.0
      ensures CalculateTotalActivityTime() >= 0.0 && CalculateTotalBurnedCalories() >= 0.0
    {
      SumOfNonNegative(Activities(), DurationOf);
      SumOfNonNegative(Activities(), CaloriesOf);
    }

    /** `findTheLongestActivity()`: the first activity of greatest duration, `None` for null. */
    function FindTheLongestActivity(): (r: Option<ActivityObject>)
      reads this, activitiesList
      ensures r.None? <==> |activitiesList| == 0
      ensures r.Some? ==> exists k :: IsFirstMax(Activities(), DurationKey, k) && r.value == activitiesList[k]
    {
      if |activitiesList| == 0 then None else Some(activitiesList[MaxIndex(Activities(), DurationKey)])
    }

    /** `findTheShortestActivity()`: the first activity of least duration. */
    function FindTheShortestActivity(): (r: Option<ActivityObject>)
      reads this, activitiesList
      ensures r.None? <==> |activitiesList| == 0
      ensures r.Some? ==> exists k :: IsFirstMin(Activities(), DurationKey, k) && r.value == activitiesList[k]
    {
      if |activitiesList| == 0 then None else Some(activitiesList[MinIndex(Activities(), DurationKey)])
    }

    /**
     * `findMostEffectiveActivity()`: the first activity with the greatest calories
     * per minute under `Double.compare`, where a zero duration gives an infinity or NaN.
     */
    function FindMostEffectiveActivity(): (r: Option<ActivityObject>)
      reads this, activitiesList
      ensures r.None? <==> |activitiesList| == 0
      ensures r.Some? ==> exists k :: IsFirstMax(Activities(), RateKey, k) && r.value == activitiesList[k]
    {
      if |activitiesList| == 0 then None else Some(activitiesList[MaxIndex(Activities(), RateKey)])
    }
  }
}
