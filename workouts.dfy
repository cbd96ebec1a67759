// The workouts screen's weight lookup in the users' data file.

module Workouts {
  import opened JavaText
  import opened JavaNumbers

  /** A line that holds the weight of `uuid`: at least three fields, the first one the id. */
  predicate IsWeightLine(line: string, uuid: string)
  {
    var parts := Split(line, ';');
    |parts| >= 3 && parts[0] == uuid
  }

  /** The weight a line stores: its third field read as a double, 0.0 when it is not a number. */
  function StoredWeight(nf: Numerals, line: string): real
    requires |Split(line, ';')| >= 3
  {
    var w := ParseDouble(nf, Split(line, ';')[2]);
    if w.Some? then w.value else 0.0
  }

  /** The weight of the first line of the user, or 0.0 when there is none. */
  function UserWeight(nf: Numerals, uuid: string, lines: seq<string>): real
  {
    if |lines| == 0 then 0.0
    else if IsWeightLine(lines[0], uuid) then StoredWeight(nf, lines[0])
    else UserWeight(nf, uuid, lines[1..])
  }

  /**
   * `getUserWeight`: the lines are searched in order and the first line of
   * the user decides, even when its weight is not a number; a missing file
   * gives 0.0.
   */
  method GetUserWeight(nf: Numerals, uuid: string, file: Option<seq<string>>) returns (weight: real)
    ensures file.None? ==> weight == 0.0
    ensures file.Some? ==> weight == UserWeight(nf, uuid, file.value)
  {
    if file.None? {
      return 0.0;
    }
    var lines := file.value;
    var i := 0;
    while i < |lines|
      invariant 0 <= i <= |lines|
      invariant UserWeight(nf, uuid, lines) == UserWeight(nf, uuid, lines[i..])
    {
      var parts := Split(lines[i], ';');
      if |parts| >= 3 && parts[0] == uuid {
        var w := ParseDouble(nf, parts[2]);
        if w.None? {
          return 0.0;
        }
        return w.value;
      }
      assert lines[i..][1..] == lines[i + 1..];
      i := i + 1;
    }
    return 0.0;
  }

  /** The weight is the one stored on the first line of the user: lines before it and after it do not matter. */
  lemma {:induction false} UserWeightOfFirst(nf: Numerals, uuid: string, lines: seq<string>, k: nat)
    requires k < |lines| && IsWeightLine(lines[k], uuid)
    requires forall j :: 0 <= j < k ==> !IsWeightLine(lines[j], uuid)
    ensures UserWeight(nf, uuid, lines) == StoredWeight(nf, lines[k])
  {
    if k > 0 {
      assert !IsWeightLine(lines[0], uuid);
      assert forall j :: 0 <= j < k - 1 ==> lines[1..][j] == lines[j + 1];
      UserWeightOfFirst(nf, uuid, lines[1..], k - 1);
    }
  }

  /** Without a line of the user the weight is 0.0. */
  lemma {:induction false} UserWeightOfNone(nf: Numerals, uuid: string, lines: seq<string>)
    requires forall j :: 0 <= j < |lines| ==> !IsWeightLine(lines[j], uuid)
    ensures UserWeight(nf, uuid, lines) == 0.0
  {
    if |lines| > 0 {
      assert !IsWeightLine(lines[0], uuid);
      assert forall j :: 0 <= j < |lines| - 1 ==> lines[1..][j] == lines[j + 1];
      UserWeightOfNone(nf, uuid, lines[1..]);
    }
  }

  /** A joined line whose first field is the id and whose third is a double's text gives that double. */
  lemma StoredWeightOfRecord(nf: Numerals, uuid: string, weight: real, fs: seq<string>)
    requires RoundTrips(nf, weight)
    requires |fs| >= 3 && fs[0] == uuid && fs[2] == nf.show(weight) && fs[|fs| - 1] != ""
    requires forall i :: 0 <= i < |fs| ==> ';' !in fs[i]
    ensures IsWeightLine(Join(fs, ';'), uuid) && StoredWeight(nf, Join(fs, ';')) == weight
  {
    SplitOfJoin(fs, ';');
    ParseDoubleOfShow(nf, weight);
  }
}
