// The round trip between an activity's summary line and the statistics
// screen's parser: the fields written by `getAllInfo` come back out of
// `extractField`, and `parseActivity` rebuilds the workout.

module WorkoutRoundTrip {
  import opened JavaText
  import opened JavaNumbers
  import opened Activities
  import opened WorkoutStats

  /** The workout the statistics screen should rebuild from an activity's summary. */
  function WorkoutOf(a: Activity): Workout
  {
    match a.details
    case Running(distance, speed) => Workout(a.name, a.burnedCalories, a.duration, distance, speed)
    case Cycling(distance, speed) => Workout(a.name, a.burnedCalories, a.duration, distance, speed)
    case RopeJumping(repetitions) => Workout(a.name, a.burnedCalories, a.duration, repetitions as real, 0.0)
  }

  /** The activity carries its kind's name, up to case, as the training form gives it. */
  predicate NamedAsKind(a: Activity)
  {
    EqualsIgnoreCase(a.name, KindName(a.details))
  }

  /** A kind's name holds none of the characters the field search relies on. */
  lemma KindNameChars(n: string, d: Details)
    requires EqualsIgnoreCase(n, KindName(d))
    ensures TrimFixed(n)
    ensures 'B' !in n && 'D' !in n && 't' !in n
    ensures d.Running? ==> 'A' !in n
    ensures d.Cycling? ==> 'M' !in n
  {
    var k := KindName(d);
    assert ToUpper(n[0]) == ToUpper(k[0]) && ToUpper(n[|n| - 1]) == ToUpper(k[|k| - 1]);
    NotInUpToCase(n, k, 'B');
    NotInUpToCase(n, k, 'D');
    NotInUpToCase(n, k, 't');
    if d.Running? {
      NotInUpToCase(n, k, 'A');
    }
    if d.Cycling? {
      NotInUpToCase(n, k, 'M');
    }
  }

  /** The characters of a numeral. */
  lemma NumeralChars(c: string)
    requires NumeralText(c)
    ensures TrimFixed(c)
    ensures ' ' !in c && 'A' !in c && 'B' !in c && 'D' !in c && 'M' !in c && 'R' !in c && 's' !in c
  {
  }

  /** `extractField` returns the trimmed stretch between the positions its searches find. */
  lemma ExtractFieldAt(s: string, startTag: string, endTag: string, p: nat, e: nat)
    requires IndexOf(s, startTag) == p
    requires IndexOfFrom(s, endTag, p + |startTag|) == e && endTag != ""
    requires p + |startTag| < e <= |s|
    ensures ExtractField(s, startTag, endTag) == Trim(s[p + |startTag|..e])
  {
    assert TagStart(s, startTag) == p;
    assert FieldEnd(s, endTag, p + |startTag|) == e;
  }

  /** A start tag at the front is found there. */
  lemma StartTagFirst(startTag: string, rest: string)
    ensures IndexOf(startTag + rest, startTag) == 0
  {
    assert (startTag + rest)[0..|startTag|] == startTag;
  }

  /** The start tag is found right after `a` when a character of it does not occur in `a`. */
  lemma StartTagAt(a: string, startTag: string, rest: string, j: nat)
    requires j < |startTag| && startTag[j] !in a && startTag[j] !in startTag[..j]
    ensures IndexOf(a + startTag + rest, startTag) == |a|
  {
    assert a + startTag + rest == "" + a + startTag + rest;
    FoundAfter("", a, startTag, rest, j);
  }

  /** The same when the text before the start tag needs two characters of it to be ruled out. */
  lemma StartTagAt2(a1: string, a2: string, startTag: string, rest: string, j1: nat, j2: nat)
    requires j1 < |startTag| && j1 <= |a2| && startTag[j1] !in a1 && startTag[j1] !in a2[..j1]
    requires j2 < |startTag| && startTag[j2] !in a2 && startTag[j2] !in startTag[..j2]
    ensures IndexOf(a1 + a2 + startTag + rest, startTag) == |a1| + |a2|
  {
    assert a1 + a2 + startTag + rest == "" + a1 + a2 + startTag + rest;
    FoundAfter2("", a1, a2, startTag, rest, j1, j2);
  }

  /** `extractField` on an entry that starts with its start tag. */
  lemma ExtractFieldOfFirst(startTag: string, b: string, endTag: string, rest: string, j: nat)
    requires j < |endTag| && endTag[j] !in b && endTag[j] !in endTag[..j]
    requires |b| > 0
    ensures ExtractField(startTag + b + endTag + rest, startTag, endTag) == Trim(b)
  {
    var s := startTag + b + endTag + rest;
    AppendAssoc(startTag, b, endTag);
    AppendAssoc(startTag, b + endTag, rest);
    StartTagFirst(startTag, b + endTag + rest);
    FoundAfter(startTag, b, endTag, rest, j);
    SliceOfMiddle(startTag, b, endTag + rest);
    AppendAssoc(startTag + b, endTag, rest);
    ExtractFieldAt(s, startTag, endTag, 0, |startTag| + |b|);
  }

  /**
   * `extractField` returns the trimmed stretch `b` between the tags when each
   * tag is recognised by a character the text before it lacks.
   */
  lemma ExtractFieldOf(a: string, startTag: string, b: string, endTag: string, rest: string, j1: nat, j2: nat)
    requires j1 < |startTag| && startTag[j1] !in a && startTag[j1] !in startTag[..j1]
    requires j2 < |endTag| && endTag[j2] !in b && endTag[j2] !in endTag[..j2]
    requires |b| > 0
    ensures ExtractField(a + startTag + b + endTag + rest, startTag, endTag) == Trim(b)
  {
    var pre := a + startTag;
    var s := pre + b + endTag + rest;
    StartTagAt(a, startTag, b + endTag + rest, j1);
    AppendAssoc(pre, b, endTag);
    AppendAssoc(pre, b + endTag, rest);
    FoundAfter(pre, b, endTag, rest, j2);
    SliceOfMiddle(pre, b, endTag + rest);
    AppendAssoc(pre + b, endTag, rest);
    ExtractFieldAt(s, startTag, endTag, |a|, |pre| + |b|);
  }

  /** `ExtractFieldOf` with two stretches before the start tag. */
  lemma ExtractFieldOf2(a1: string, a2: string, startTag: string, b: string, endTag: string, rest: string,
                        j0: nat, j1: nat, j2: nat)
    requires j0 < |startTag| && j0 <= |a2| && startTag[j0] !in a1 && startTag[j0] !in a2[..j0]
    requires j1 < |startTag| && startTag[j1] !in a2 && startTag[j1] !in startTag[..j1]
    requires j2 < |endTag| && endTag[j2] !in b && endTag[j2] !in endTag[..j2]
    requires |b| > 0
    ensures ExtractField(a1 + a2 + startTag + b + endTag + rest, startTag, endTag) == Trim(b)
  {
    var pre := a1 + a2 + startTag;
    var s := pre + b + endTag + rest;
    StartTagAt2(a1, a2, startTag, b + endTag + rest, j0, j1);
    AppendAssoc(pre, b, endTag);
    AppendAssoc(pre, b + endTag, rest);
    FoundAfter(pre, b, endTag, rest, j2);
    SliceOfMiddle(pre, b, endTag + rest);
    AppendAssoc(pre + b, endTag, rest);
    ExtractFieldAt(s, startTag, endTag, |a1| + |a2|, |pre| + |b|);
  }

  /** The middle piece of a concatenation is the slice between the other two. */
  lemma SliceOfMiddle(a: string, b: string, c: string)
    ensures (a + b + c)[|a|..|a| + |b|] == b
  {
  }

  /** With an empty end tag the field runs to the end of the entry. */
  lemma ExtractFieldToEnd(a: string, startTag: string, b: string, j1: nat)
    requires j1 < |startTag| && startTag[j1] !in a && startTag[j1] !in startTag[..j1]
    requires |b| > 0
    ensures ExtractField(a + startTag + b, startTag, "") == Trim(b)
  {
    var s := a + startTag + b;
    StartTagAt(a, startTag, b, j1);
    assert s[|a| + |startTag|..|s|] == b;
  }

  /** With an empty end tag, and two stretches before the start tag. */
  lemma ExtractFieldToEnd2(a1: string, a2: string, startTag: string, b: string, j1: nat, j2: nat)
    requires j1 < |startTag| && j1 <= |a2| && startTag[j1] !in a1 && startTag[j1] !in a2[..j1]
    requires j2 < |startTag| && startTag[j2] !in a2 && startTag[j2] !in startTag[..j2]
    requires |b| > 0
    ensures ExtractField(a1 + a2 + startTag + b, startTag, "") == Trim(b)
  {
    var s := a1 + a2 + startTag + b;
    StartTagAt2(a1, a2, startTag, b, j1, j2);
    assert s[|a1| + |a2| + |startTag|..|s|] == b;
  }

  // ----- the fields of a summary -----

  /** The name comes back out of a summary. */
  lemma NameOfSummary(n: string, c: string, d: string, tail: string)
    requires TrimFixed(n) && 'B' !in n
    ensures ExtractField(NAME_LABEL + n + CALORIES_LABEL + c + DURATION_LABEL + d + tail,
                         "Name: ", "Burned calories:") == n
  {
    var rest := " " + c + DURATION_LABEL + d + tail;
    assert NAME_LABEL + n + CALORIES_LABEL + c + DURATION_LABEL + d + tail
        == "Name: " + (n + " ") + "Burned calories:" + rest;
    ExtractFieldOfFirst("Name: ", n + " ", "Burned calories:", rest, 0);
    TrimOfSpaced(n);
  }

  /** The calories come back out of a summary. */
  lemma CaloriesOfSummary(n: string, c: string, d: string, tail: string)
    requires 'B' !in n && NumeralText(c)
    ensures ExtractField(NAME_LABEL + n + CALORIES_LABEL + c + DURATION_LABEL + d + tail,
                         "Burned calories: ", "Duration:") == c
  {
    NumeralChars(c);
    var rest := " " + d + tail;
    assert NAME_LABEL + n + CALORIES_LABEL + c + DURATION_LABEL + d + tail
        == ("Name: " + n + " ") + "Burned calories: " + (c + " ") + "Duration:" + rest;
    ExtractFieldOf("Name: " + n + " ", "Burned calories: ", c + " ", "Duration:", rest, 0, 0);
    TrimOfSpaced(c);
  }

  /** The duration comes back out of a summary whose next label is `endTag`. */
  lemma DurationOfSummary(n: string, c: string, d: string, endTag: string, tail: string)
    requires 'D' !in n && NumeralText(c) && NumeralText(d)
    requires |endTag| > 0 && endTag[0] != ' ' && endTag[0] !in d
    ensures ExtractField(NAME_LABEL + n + CALORIES_LABEL + c + DURATION_LABEL + d + (" " + endTag + tail),
                         "Duration: ", endTag) == d
  {
    NumeralChars(c);
    NumeralChars(d);
    var a := "Name: " + n + " Burned calories: " + c + " ";
    assert NAME_LABEL + n + CALORIES_LABEL + c + DURATION_LABEL + d + (" " + endTag + tail)
        == a + "Duration: " + (d + " ") + endTag + tail;
    ExtractFieldOf(a, "Duration: ", d + " ", endTag, tail, 0, 0);
    TrimOfSpaced(d);
  }

  /** How the labels of a summary split around the tags the statistics screen searches for. */
  lemma LabelSplits()
    ensures DISTANCE_RAN_LABEL == " " + "Distance ran: "
    ensures DISTANCE_CYCLED_LABEL == " " + "Distance cycled: "
    ensures AVERAGE_SPEED_LABEL == " km " + "Average speed:" + " " == " km " + "Average speed: "
    ensures MAXIMUM_SPEED_LABEL == " km " + "Maximum speed:" + " " == " km " + "Maximum speed: "
    ensures REPETITIONS_LABEL == " " + "Repetitions: "
    ensures DISTANCE_RAN_LABEL == " " + "Distance ran:" + " "
    ensures DISTANCE_CYCLED_LABEL == " " + "Distance cycled:" + " "
    ensures REPETITIONS_LABEL == " " + "Repetitions:" + " "
  {
    SpeedLabelSplits();
  }

  lemma SpeedLabelSplits()
    ensures AVERAGE_SPEED_LABEL == " km " + "Average speed:" + " " == " km " + "Average speed: "
    ensures MAXIMUM_SPEED_LABEL == " km " + "Maximum speed:" + " " == " km " + "Maximum speed: "
  {
  }

  /** The characters the labels lack. */
  lemma LabelChars()
    ensures 'A' !in NAME_LABEL && 'B' !in NAME_LABEL && 'D' !in NAME_LABEL && 'M' !in NAME_LABEL && 't' !in NAME_LABEL
    ensures 'A' !in CALORIES_LABEL && 'D' !in CALORIES_LABEL && 'M' !in CALORIES_LABEL && 'R' !in CALORIES_LABEL
    ensures 'A' !in DURATION_LABEL && 'M' !in DURATION_LABEL && 'R' !in DURATION_LABEL && 's' !in DURATION_LABEL
    ensures 'A' !in DISTANCE_RAN_LABEL && 'M' !in DISTANCE_CYCLED_LABEL && 'A' !in " km " && 'M' !in " km "
  {
    CaloriesLabelChars();
    DurationLabelChars();
    DistanceLabelChars();
  }

  lemma CaloriesLabelChars()
    ensures 'A' !in CALORIES_LABEL && 'D' !in CALORIES_LABEL && 'M' !in CALORIES_LABEL && 'R' !in CALORIES_LABEL
  {
  }

  lemma DurationLabelChars()
    ensures 'A' !in DURATION_LABEL && 'M' !in DURATION_LABEL && 'R' !in DURATION_LABEL && 's' !in DURATION_LABEL
  {
  }

  lemma DistanceLabelChars()
    ensures 'A' !in DISTANCE_RAN_LABEL && 'M' !in DISTANCE_CYCLED_LABEL
  {
  }

  // Regroupings of a summary's pieces, proved once over arbitrary strings.

  lemma RegroupDistance(h: string, dl: string, d: string, sp: string, st: string, x: string,
                        km: string, et: string, sp2: string, v: string, u: string)
    ensures h + dl + d + (sp + st + x + (km + et + sp2) + v + u)
         == h + (dl + d + sp) + st + (x + km) + et + (sp2 + v + u)
  {
  }

  lemma RegroupTail(sp: string, et: string, sp2: string, x: string, l: string, v: string, u: string)
    ensures sp + et + sp2 + x + l + v + u == sp + et + (sp2 + x + l + v + u)
  {
  }

  lemma RegroupRopeTail(sp: string, et: string, sp2: string, k: string)
    ensures sp + et + sp2 + k == sp + et + (sp2 + k)
  {
  }

  lemma RegroupSpeed(h: string, dl: string, x: string, km: string, st: string, v: string, u: string)
    ensures h + (dl + x + (km + st) + v + u) == (h + dl + x + km) + st + (v + u)
  {
  }

  lemma RegroupRepetitions(a1: string, cl: string, c: string, dl: string, d: string,
                           sp: string, st: string, k: string)
    ensures a1 + cl + c + dl + d + (sp + st + k) == a1 + (cl + c + dl + d + sp) + st + k
  {
  }

  /** The distance of a running summary comes back with its unit. */
  lemma DistanceOfRunning(n: string, c: string, d: string, x: string, v: string)
    requires 'D' !in n && NumeralText(c) && NumeralText(d) && NumeralText(x)
    ensures ExtractField(NAME_LABEL + n + CALORIES_LABEL + c + DURATION_LABEL + d
                           + (DISTANCE_RAN_LABEL + x + AVERAGE_SPEED_LABEL + v + SPEED_UNIT),
                         "Distance ran: ", "Average speed:") == x + " km"
  {
    NumeralChars(c);
    NumeralChars(d);
    NumeralChars(x);
    var h := NAME_LABEL + n + CALORIES_LABEL + c;
    LabelSplits();
    LabelChars();
    RegroupDistance(h, DURATION_LABEL, d, " ", "Distance ran: ", x, " km ", "Average speed:", " ", v, SPEED_UNIT);
    ExtractFieldOf2(h, DURATION_LABEL + d + " ", "Distance ran: ", x + " km ", "Average speed:",
                    " " + v + SPEED_UNIT, 0, 2, 0);
    DistanceText(x);
  }

  /** The speed of a running summary comes back with its unit. */
  lemma SpeedOfRunning(n: string, c: string, d: string, x: string, v: string)
    requires 'A' !in n && NumeralText(c) && NumeralText(d) && NumeralText(x) && NumeralText(v)
    ensures ExtractField(NAME_LABEL + n + CALORIES_LABEL + c + DURATION_LABEL + d
                           + (DISTANCE_RAN_LABEL + x + AVERAGE_SPEED_LABEL + v + SPEED_UNIT),
                         "Average speed: ", "") == v + " km/h"
  {
    NumeralChars(c);
    NumeralChars(d);
    NumeralChars(x);
    NumeralChars(v);
    var h := NAME_LABEL + n + CALORIES_LABEL + c + DURATION_LABEL + d;
    LabelSplits();
    LabelChars();
    RegroupSpeed(h, DISTANCE_RAN_LABEL, x, " km ", "Average speed: ", v, SPEED_UNIT);
    ExtractFieldToEnd(h + DISTANCE_RAN_LABEL + x + " km ", "Average speed: ", v + SPEED_UNIT, 0);
    SpeedText(v);
  }

  /** The distance of a cycling summary comes back with its unit. */
  lemma DistanceOfCycling(n: string, c: string, d: string, x: string, v: string)
    requires 'D' !in n && NumeralText(c) && NumeralText(d) && NumeralText(x)
    ensures ExtractField(NAME_LABEL + n + CALORIES_LABEL + c + DURATION_LABEL + d
                           + (DISTANCE_CYCLED_LABEL + x + MAXIMUM_SPEED_LABEL + v + SPEED_UNIT),
                         "Distance cycled: ", "Maximum speed:") == x + " km"
  {
    NumeralChars(c);
    NumeralChars(d);
    NumeralChars(x);
    var h := NAME_LABEL + n + CALORIES_LABEL + c;
    LabelSplits();
    LabelChars();
    RegroupDistance(h, DURATION_LABEL, d, " ", "Distance cycled: ", x, " km ", "Maximum speed:", " ", v, SPEED_UNIT);
    ExtractFieldOf2(h, DURATION_LABEL + d + " ", "Distance cycled: ", x + " km ", "Maximum speed:",
                    " " + v + SPEED_UNIT, 0, 2, 0);
    DistanceText(x);
  }

  /** The speed of a cycling summary comes back with its unit. */
  lemma SpeedOfCycling(n: string, c: string, d: string, x: string, v: string)
    requires 'M' !in n && NumeralText(c) && NumeralText(d) && NumeralText(x) && NumeralText(v)
    ensures ExtractField(NAME_LABEL + n + CALORIES_LABEL + c + DURATION_LABEL + d
                           + (DISTANCE_CYCLED_LABEL + x + MAXIMUM_SPEED_LABEL + v + SPEED_UNIT),
                         "Maximum speed: ", "") == v + " km/h"
  {
    NumeralChars(c);
    NumeralChars(d);
    NumeralChars(x);
    NumeralChars(v);
    var h := NAME_LABEL + n + CALORIES_LABEL + c + DURATION_LABEL + d;
    LabelSplits();
    LabelChars();
    RegroupSpeed(h, DISTANCE_CYCLED_LABEL, x, " km ", "Maximum speed: ", v, SPEED_UNIT);
    ExtractFieldToEnd(h + DISTANCE_CYCLED_LABEL + x + " km ", "Maximum speed: ", v + SPEED_UNIT, 0);
    SpeedText(v);
  }

  /** The repetitions of a rope-jumping summary come back. */
  lemma RepetitionsOfRope(n: string, c: string, d: string, r: Int32)
    requires 't' !in n && NumeralText(c) && NumeralText(d)
    ensures ParseInt(Trim(ExtractField(NAME_LABEL + n + CALORIES_LABEL + c + DURATION_LABEL + d
                                         + (REPETITIONS_LABEL + IntToString(r)),
                                       "Repetitions: ", ""))) == Some(r)
  {
    NumeralChars(c);
    NumeralChars(d);
    var k := IntToString(r);
    IntToStringChars(r);
    var a2 := CALORIES_LABEL + c + DURATION_LABEL + d + " ";
    assert a2[..4] == " Bur";
    LabelSplits();
    LabelChars();
    RegroupRepetitions(NAME_LABEL + n, CALORIES_LABEL, c, DURATION_LABEL, d, " ", "Repetitions: ", k);
    ExtractFieldToEnd2(NAME_LABEL + n, a2, "Repetitions: ", k, 4, 0);
    assert TrimFixed(k);
    TrimOfFixed(k);
    ParseIntOfIntToString(r);
  }

  /** The text of a distance before its unit, as the statistics screen cleans it up. */
  lemma DistanceText(x: string)
    requires NumeralText(x)
    ensures Trim(x + " km ") == x + " km" && Trim(Replace(x + " km", " km", "")) == x
  {
    NumeralChars(x);
    var k := x + " km";
    assert k[0] == x[0] && k[|k| - 1] == 'm';
    TrimOfSpaced(k);
    assert x + " km " == k + " ";
    ReplaceSuffix(x, " km");
    TrimOfFixed(x);
  }

  /** The text of a speed before its unit, as the statistics screen cleans it up. */
  lemma SpeedText(v: string)
    requires NumeralText(v)
    ensures Trim(v + " km/h") == v + " km/h" && Trim(Replace(v + " km/h", " km/h", "")) == v
  {
    NumeralChars(v);
    var k := v + " km/h";
    assert k[0] == v[0] && k[|k| - 1] == 'h';
    TrimOfFixed(k);
    ReplaceSuffix(v, " km/h");
    TrimOfFixed(v);
  }

  // ----- the round trip -----

  /** Which kind the statistics screen takes a kind's name for. */
  lemma KindNameClassified(n: string, d: Details)
    requires EqualsIgnoreCase(n, KindName(d))
    ensures EqualsIgnoreCase(n, "Running") <==> d.Running?
    ensures EqualsIgnoreCase(n, "Cycling") <==> d.Cycling?
    ensures EqualsIgnoreCase(n, "Rope Jumping") <==> d.RopeJumping?
  {
    var k := KindName(d);
    assert ToUpper(n[0]) == ToUpper(k[0]);
    assert "Running"[0] == 'R' && "Cycling"[0] == 'C';
    assert |"Rope Jumping"| == 12 && |"Running"| == 7 && |"Cycling"| == 7;
  }

  /** `parseActivity` on an entry whose running (or cycling) fields read back. */
  lemma ParseMovingFields(nf: Numerals, s: string, running: bool, n: string, c: real, d: real, x: real, v: real)
    requires EqualsIgnoreCase(n, if running then "Running" else "Cycling")
    requires ExtractField(s, "Name: ", "Burned calories:") == n
    requires ParseDouble(nf, Trim(ExtractField(s, "Burned calories: ", "Duration:"))) == Some(c)
    requires ParseDouble(nf, Trim(ExtractField(s, "Duration: ",
               if running then "Distance ran:" else "Distance cycled:"))) == Some(d)
    requires ParseDouble(nf, Trim(Replace(ExtractField(s, if running then "Distance ran: " else "Distance cycled: ",
               if running then "Average speed:" else "Maximum speed:"), " km", ""))) == Some(x)
    requires ParseDouble(nf, Trim(Replace(ExtractField(s, if running then "Average speed: " else "Maximum speed: ", ""),
               " km/h", ""))) == Some(v)
    ensures ParseEntry(nf, s) == Added(Workout(n, c, d, x, v))
  {
    KindNameClassified(n, if running then Running(x, v) else Cycling(x, v));
  }

  /** A running activity's summary parses back to its workout. */
  lemma ParseRunningInfo(nf: Numerals, a: Activity)
    requires NumbersRoundTrip(nf, a) && NamedAsKind(a) && a.details.Running?
    ensures ParseEntry(nf, GetAllInfo(nf, a)) == Added(WorkoutOf(a))
  {
    var n, c, d := a.name, nf.show(a.burnedCalories), nf.show(a.duration);
    var x, v := nf.show(a.details.coveredDistance), nf.show(a.details.averageSpeed);
    KindNameChars(n, a.details);
    NumeralChars(c);
    NumeralChars(d);
    LabelSplits();
    var tail := DISTANCE_RAN_LABEL + x + AVERAGE_SPEED_LABEL + v + SPEED_UNIT;
    NameOfSummary(n, c, d, tail);
    CaloriesOfSummary(n, c, d, tail);
    RegroupTail(" ", "Distance ran:", " ", x, AVERAGE_SPEED_LABEL, v, SPEED_UNIT);
    DurationOfSummary(n, c, d, "Distance ran:", " " + x + AVERAGE_SPEED_LABEL + v + SPEED_UNIT);
    DistanceOfRunning(n, c, d, x, v);
    SpeedOfRunning(n, c, d, x, v);
    DistanceText(x);
    SpeedText(v);
    TrimOfFixed(c);
    TrimOfFixed(d);
    ParseDoubleOfShow(nf, a.burnedCalories);
    ParseDoubleOfShow(nf, a.duration);
    ParseDoubleOfShow(nf, a.details.coveredDistance);
    ParseDoubleOfShow(nf, a.details.averageSpeed);
    ParseMovingFields(nf, GetAllInfo(nf, a), true, n, a.burnedCalories, a.duration,
                      a.details.coveredDistance, a.details.averageSpeed);
  }

  /** A cycling activity's summary parses back to its workout. */
  lemma ParseCyclingInfo(nf: Numerals, a: Activity)
    requires NumbersRoundTrip(nf, a) && NamedAsKind(a) && a.details.Cycling?
    ensures ParseEntry(nf, GetAllInfo(nf, a)) == Added(WorkoutOf(a))
  {
    var n, c, d := a.name, nf.show(a.burnedCalories), nf.show(a.duration);
    var x, v := nf.show(a.details.coveredDistance), nf.show(a.details.maxSpeed);
    KindNameChars(n, a.details);
    NumeralChars(c);
    NumeralChars(d);
    LabelSplits();
    var tail := DISTANCE_CYCLED_LABEL + x + MAXIMUM_SPEED_LABEL + v + SPEED_UNIT;
    NameOfSummary(n, c, d, tail);
    CaloriesOfSummary(n, c, d, tail);
    RegroupTail(" ", "Distance cycled:", " ", x, MAXIMUM_SPEED_LABEL, v, SPEED_UNIT);
    DurationOfSummary(n, c, d, "Distance cycled:", " " + x + MAXIMUM_SPEED_LABEL + v + SPEED_UNIT);
    DistanceOfCycling(n, c, d, x, v);
    SpeedOfCycling(n, c, d, x, v);
    DistanceText(x);
    SpeedText(v);
    TrimOfFixed(c);
    TrimOfFixed(d);
    ParseDoubleOfShow(nf, a.burnedCalories);
    ParseDoubleOfShow(nf, a.duration);
    ParseDoubleOfShow(nf, a.details.coveredDistance);
    ParseDoubleOfShow(nf, a.details.maxSpeed);
    ParseMovingFields(nf, GetAllInfo(nf, a), false, n, a.burnedCalories, a.duration,
                      a.details.coveredDistance, a.details.maxSpeed);
  }

  /** `parseActivity` on an entry whose rope-jumping fields read back. */
  lemma ParseRopeJumpingFields(nf: Numerals, s: string, n: string, c: real, d: real, r: Int32)
    requires EqualsIgnoreCase(n, "Rope Jumping")
    requires ExtractField(s, "Name: ", "Burned calories:") == n
    requires ParseDouble(nf, Trim(ExtractField(s, "Burned calories: ", "Duration:"))) == Some(c)
    requires ParseDouble(nf, Trim(ExtractField(s, "Duration: ", "Repetitions:"))) == Some(d)
    requires ParseInt(Trim(ExtractField(s, "Repetitions: ", ""))) == Some(r)
    ensures ParseEntry(nf, s) == Added(Workout(n, c, d, r as real, 0.0))
  {
    KindNameClassified(n, RopeJumping(r));
  }

  /** A rope-jumping activity's summary parses back to its workout. */
  lemma ParseRopeJumpingInfo(nf: Numerals, a: Activity)
    requires NumbersRoundTrip(nf, a) && NamedAsKind(a) && a.details.RopeJumping?
    ensures ParseEntry(nf, GetAllInfo(nf, a)) == Added(WorkoutOf(a))
  {
    var n, c, d := a.name, nf.show(a.burnedCalories), nf.show(a.duration);
    var r := a.details.numberOfRepetitions;
    KindNameChars(n, a.details);
    NumeralChars(c);
    NumeralChars(d);
    LabelSplits();
    var tail := REPETITIONS_LABEL + IntToString(r);
    NameOfSummary(n, c, d, tail);
    CaloriesOfSummary(n, c, d, tail);
    RegroupRopeTail(" ", "Repetitions:", " ", IntToString(r));
    DurationOfSummary(n, c, d, "Repetitions:", " " + IntToString(r));
    RepetitionsOfRope(n, c, d, r);
    TrimOfFixed(c);
    TrimOfFixed(d);
    ParseDoubleOfShow(nf, a.burnedCalories);
    ParseDoubleOfShow(nf, a.duration);
    ParseRopeJumpingFields(nf, GetAllInfo(nf, a), n, a.burnedCalories, a.duration, r);
  }

  /**
   * The statistics screen rebuilds, from the summary `getAllInfo` writes, the
   * workout the activity describes, whenever the activity carries its kind's name.
   */
  lemma ParseEntryOfInfo(nf: Numerals, a: Activity)
    requires NumbersRoundTrip(nf, a) && NamedAsKind(a)
    ensures ParseEntry(nf, GetAllInfo(nf, a)) == Added(WorkoutOf(a))
  {
    match a.details
    case Running(_, _) => ParseRunningInfo(nf, a);
    case Cycling(_, _) => ParseCyclingInfo(nf, a);
    case RopeJumping(_) => ParseRopeJumpingInfo(nf, a);
  }
}
