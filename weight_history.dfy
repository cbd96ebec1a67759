// The weight history screen: reading the user's dated weights back from
// the weights file `uuid;date~weight;date~weight;...`.

module WeightHistory {
  import opened JavaText
  import opened JavaNumbers
  import opened AboutMe

  /** One point of the history. */
  datatype WeightEntry = WeightEntry(date: string, weight: real)

  /**
   * The entry one field of a user's line yields: a field holding `~` that
   * splits on it into exactly two parts; an unreadable weight reads as 0.
   */
  function EntryOf(nf: Numerals, field: string): (r: Option<WeightEntry>)
    ensures r.Some? ==> StartsWith(field, r.value.date + "~")
  {
    if '~' in field && |Split(field, '~')| == 2 then
      var sub := Split(field, '~');
      var w := ParseDouble(nf, sub[1]);
      assert StartsWith(field, sub[0] + "~") by {
        SplitIsPrefixOfFields(field, '~');
        JoinOfFields(field, '~');
        var fs := Fields(field, '~');
        assert fs[0] == sub[0] && |fs| >= 2;
        JoinAsHeadAndTail(fs, '~');
        JoinAsHeadAndTail(fs[1..], '~');
      }
      Some(WeightEntry(sub[0], if w.Some? then w.value else 0.0))
    else None
  }

  function EntriesOf(e: Option<WeightEntry>): seq<WeightEntry>
  {
    if e.Some? then [e.value] else []
  }

  /** The entries of the fields after the id, in field order. */
  function FieldEntries(nf: Numerals, fields: seq<string>): seq<WeightEntry>
  {
    if |fields| == 0 then []
    else FieldEntries(nf, fields[..|fields| - 1]) + EntriesOf(EntryOf(nf, fields[|fields| - 1]))
  }

  /** A line contributes only when it is a non-blank line of the user with at least two fields. */
  function LineEntries(nf: Numerals, uuid: string, line: string): seq<WeightEntry>
  {
    if IsUserWeightsLine(line, uuid) then FieldEntries(nf, Split(line, ';')[1..]) else []
  }

  /** The history read from the whole file: every line of the user contributes, in file order. */
  function FileEntries(nf: Numerals, uuid: string, lines: seq<string>): seq<WeightEntry>
  {
    if |lines| == 0 then []
    else FileEntries(nf, uuid, lines[..|lines| - 1]) + LineEntries(nf, uuid, lines[|lines| - 1])
  }

  /** The screen's state: the logged-in user and the entries read so far. */
  class WeightHistoryScreen {
    var userUUID: string
    var weightEntries: seq<WeightEntry>

    constructor (loggedInUserUUID: string)
      ensures userUUID == loggedInUserUUID && weightEntries == []
    {
      userUUID := loggedInUserUUID;
      weightEntries := [];
    }

    /**
     * `loadWeightDataFromFile`: every entry of every line of the user is
     * appended to the history, in file order; a missing file adds nothing.
     */
    method LoadWeightDataFromFile(nf: Numerals, file: Option<seq<string>>)
      modifies this
      ensures userUUID == old(userUUID)
      ensures weightEntries == old(weightEntries) + (if file.None? then [] else FileEntries(nf, userUUID, file.value))
    {
      if file.None? {
        return;
      }
      var lines := file.value;
      var uuid := userUUID;
      ghost var start := weightEntries;
      var i := 0;
      while i < |lines|
        invariant 0 <= i <= |lines|
        invariant userUUID == uuid
        invariant weightEntries == start + FileEntries(nf, uuid, lines[..i])
      {
        LoadStep(nf, uuid, start, lines, i);
        AddLineEntries(nf, lines[i]);
        i := i + 1;
      }
      assert lines[..i] == lines;
    }

    /** The body of the loop over lines: the entries of one line, when it is a line of the user. */
    method AddLineEntries(nf: Numerals, line: string)
      modifies this
      ensures userUUID == old(userUUID)
      ensures weightEntries == old(weightEntries) + LineEntries(nf, userUUID, line)
    {
      var uuid := userUUID;
      var parts := Split(line, ';');
      if Trim(line) != "" && |parts| >= 2 && parts[0] == uuid {
        assert IsUserWeightsLine(line, uuid);
        ghost var start := weightEntries;
        var j := 1;
        while j < |parts|
          invariant 1 <= j <= |parts|
          invariant userUUID == uuid
          invariant weightEntries == start + FieldEntries(nf, parts[1..j])
        {
          FieldStep(nf, start, parts, j);
          AddFieldEntry(nf, parts[j]);
          j := j + 1;
        }
        assert parts[1..j] == parts[1..];
      } else {
        assert !IsUserWeightsLine(line, uuid);
        assert weightEntries == old(weightEntries) + [];
      }
    }

    /** The body of the loop over fields. */
    method AddFieldEntry(nf: Numerals, entry: string)
      modifies this
      ensures userUUID == old(userUUID)
      ensures weightEntries == old(weightEntries) + EntriesOf(EntryOf(nf, entry))
    {
      if '~' in entry {
        var subParts := Split(entry, '~');
        if |subParts| == 2 {
          var date := subParts[0];
          var w := ParseDouble(nf, subParts[1]);
          var weightVal := if w.Some? then w.value else 0.0;
          weightEntries := weightEntries + [WeightEntry(date, weightVal)];
        }
      }
    }
  }

  /** One more line read by the loop of `loadWeightDataFromFile`. */
  lemma LoadStep(nf: Numerals, uuid: string, start: seq<WeightEntry>, lines: seq<string>, i: nat)
    requires i < |lines|
    ensures start + FileEntries(nf, uuid, lines[..i]) + LineEntries(nf, uuid, lines[i])
      == start + FileEntries(nf, uuid, lines[..i + 1])
  {
    assert lines[..i + 1] == lines[..i] + [lines[i]];
    FileEntriesSnoc(nf, uuid, lines[..i], lines[i]);
    AppendAssoc(start, FileEntries(nf, uuid, lines[..i]), LineEntries(nf, uuid, lines[i]));
  }

  /** One more field read by the inner loop. */
  lemma FieldStep(nf: Numerals, start: seq<WeightEntry>, parts: seq<string>, j: nat)
    requires 1 <= j < |parts|
    ensures start + FieldEntries(nf, parts[1..j]) + EntriesOf(EntryOf(nf, parts[j]))
      == start + FieldEntries(nf, parts[1..j + 1])
  {
    assert parts[1..j + 1] == parts[1..j] + [parts[j]];
    FieldEntriesSnoc(nf, parts[1..j], parts[j]);
    AppendAssoc(start, FieldEntries(nf, parts[1..j]), EntriesOf(EntryOf(nf, parts[j])));
  }

  // ----- properties of the history -----

  /** Every matching line contributes: the history of two pieces of a file is the two histories in order. */
  lemma {:induction false} FileEntriesAppend(nf: Numerals, uuid: string, a: seq<string>, b: seq<string>)
    ensures FileEntries(nf, uuid, a + b) == FileEntries(nf, uuid, a) + FileEntries(nf, uuid, b)
  {
    if |b| == 0 {
      assert a + b == a;
    } else {
      var front := b[..|b| - 1];
      var last := b[|b| - 1];
      assert a + b == (a + front) + [last];
      assert b == front + [last];
      FileEntriesAppend(nf, uuid, a, front);
      FileEntriesSnoc(nf, uuid, a + front, last);
      FileEntriesSnoc(nf, uuid, front, last);
      AppendAssoc(FileEntries(nf, uuid, a), FileEntries(nf, uuid, front), LineEntries(nf, uuid, last));
    }
  }

  /** The history of the lines followed by one more line. */
  lemma FileEntriesSnoc(nf: Numerals, uuid: string, lines: seq<string>, line: string)
    ensures FileEntries(nf, uuid, lines + [line]) == FileEntries(nf, uuid, lines) + LineEntries(nf, uuid, line)
  {
    assert (lines + [line])[..|lines|] == lines;
  }

  /** A file without a line of the user has an empty history. */
  lemma {:induction false} FileEntriesOfOthers(nf: Numerals, uuid: string, lines: seq<string>)
    requires !HasUserWeightsLine(lines, uuid)
    ensures FileEntries(nf, uuid, lines) == []
  {
    if |lines| > 0 {
      FileEntriesOfOthers(nf, uuid, lines[..|lines| - 1]);
    }
  }

  /** A stored entry reads back as the date and weight it was written from. */
  lemma EntryOfText(nf: Numerals, date: string, weight: real)
    requires RoundTrips(nf, weight) && '~' !in date
    ensures EntryOf(nf, WeightEntryText(nf, date, weight)) == Some(WeightEntry(date, weight))
  {
    var shown := nf.show(weight);
    ShowFreeOfSeparators(nf, weight);
    assert Join([date, shown], '~') == WeightEntryText(nf, date, weight);
    SplitOfJoin([date, shown], '~');
    ParseDoubleOfShow(nf, weight);
  }

  /** Each entry of a line's history comes from a field whose text starts with its date and `~`. */
  lemma {:induction false} FieldEntriesDated(nf: Numerals, fields: seq<string>, k: nat)
    requires k < |FieldEntries(nf, fields)|
    ensures exists i :: 0 <= i < |fields| && StartsWith(fields[i], FieldEntries(nf, fields)[k].date + "~")
  {
    var front := fields[..|fields| - 1];
    var e := EntryOf(nf, fields[|fields| - 1]);
    if k < |FieldEntries(nf, front)| {
      FieldEntriesDated(nf, front, k);
      var i :| 0 <= i < |front| && StartsWith(front[i], FieldEntries(nf, front)[k].date + "~");
      assert fields[i] == front[i];
    } else {
      assert FieldEntries(nf, fields)[k] == e.value;
    }
  }

  /** The entries of the fields followed by one more field. */
  lemma FieldEntriesSnoc(nf: Numerals, fields: seq<string>, f: string)
    ensures FieldEntries(nf, fields + [f]) == FieldEntries(nf, fields) + EntriesOf(EntryOf(nf, f))
  {
    assert (fields + [f])[..|fields|] == fields;
  }

  /**
   * Saving a weight rewrites a line of the user so that its history gains
   * the new entry at its end, unless that date was already saved.
   */
  lemma LineEntriesAfterUpdate(nf: Numerals, uuid: string, line: string, date: string, weight: real)
    requires RoundTrips(nf, weight) && ';' !in date && '~' !in date
    requires IsUserWeightsLine(line, uuid)
    ensures var parts := Split(line, ';');
      LineEntries(nf, uuid, UpdatedWeightsLine(line, uuid, date, WeightEntryText(nf, date, weight)))
        == LineEntries(nf, uuid, line) + (if DateSaved(parts, date) then [] else [WeightEntry(date, weight)])
  {
    var entry := WeightEntryText(nf, date, weight);
    ShowFreeOfSeparators(nf, weight);
    UpdatedWeightsLineFields(line, uuid, date, entry);
    if DateSaved(Split(line, ';'), date) {
      LineEntriesOfSameFields(nf, uuid, line, UpdatedWeightsLine(line, uuid, date, entry));
    } else {
      LineEntriesOfExtraField(nf, uuid, line, UpdatedWeightsLine(line, uuid, date, entry), entry);
      EntryOfText(nf, date, weight);
    }
  }

  /** Two lines of the user with the same fields give the same entries. */
  lemma LineEntriesOfSameFields(nf: Numerals, uuid: string, line: string, once: string)
    requires IsUserWeightsLine(line, uuid) && IsUserWeightsLine(once, uuid)
    requires Split(once, ';') == Split(line, ';') + []
    ensures LineEntries(nf, uuid, once) == LineEntries(nf, uuid, line) + []
  {
    assert Split(once, ';') == Split(line, ';');
    assert LineEntries(nf, uuid, line) + [] == LineEntries(nf, uuid, line);
  }

  /** A line of the user with one more field gives the entries of that field at the end. */
  lemma LineEntriesOfExtraField(nf: Numerals, uuid: string, line: string, once: string, entry: string)
    requires IsUserWeightsLine(line, uuid) && IsUserWeightsLine(once, uuid)
    requires Split(once, ';') == Split(line, ';') + [entry]
    ensures LineEntries(nf, uuid, once) == LineEntries(nf, uuid, line) + EntriesOf(EntryOf(nf, entry))
  {
    var parts := Split(line, ';');
    assert Split(once, ';')[1..] == parts[1..] + [entry];
    FieldEntriesSnoc(nf, parts[1..], entry);
  }

  /** Rewriting lines with no line of the user leaves them as they were. */
  lemma UpdatedWeightsAllOfOthers(lines: seq<string>, uuid: string, date: string, entry: string)
    requires !HasUserWeightsLine(lines, uuid)
    ensures UpdatedWeightsAll(lines, uuid, date, entry) == lines
  {
    NoUserWeightsLineAt(lines, uuid);
    var r := UpdatedWeightsAll(lines, uuid, date, entry);
    assert forall k :: 0 <= k < |lines| ==> r[k] == lines[k];
  }

  /** Lines with no line of the user have no such line at any index. */
  lemma {:induction false} NoUserWeightsLineAt(lines: seq<string>, uuid: string)
    requires !HasUserWeightsLine(lines, uuid)
    ensures forall k :: 0 <= k < |lines| ==> !IsUserWeightsLine(lines[k], uuid)
  {
    if |lines| > 0 {
      var front := lines[..|lines| - 1];
      assert !HasUserWeightsLine(front, uuid) && !IsUserWeightsLine(lines[|lines| - 1], uuid);
      NoUserWeightsLineAt(front, uuid);
      forall k | 0 <= k < |lines|
        ensures !IsUserWeightsLine(lines[k], uuid)
      {
        if k < |front| {
          assert front[k] == lines[k];
        }
      }
    }
  }

  lemma UpdatedWeightsAllAppend(a: seq<string>, b: seq<string>, uuid: string, date: string, entry: string)
    ensures UpdatedWeightsAll(a + b, uuid, date, entry) == UpdatedWeightsAll(a, uuid, date, entry) + UpdatedWeightsAll(b, uuid, date, entry)
  {
    var r := UpdatedWeightsAll(a + b, uuid, date, entry);
    var s := UpdatedWeightsAll(a, uuid, date, entry) + UpdatedWeightsAll(b, uuid, date, entry);
    assert |r| == |s|;
    forall k | 0 <= k < |r|
      ensures r[k] == s[k]
    {
      if k >= |a| {
        assert (a + b)[k] == b[k - |a|];
      }
    }
  }

  lemma {:induction false} HasUserWeightsLineAppend(a: seq<string>, b: seq<string>, uuid: string)
    ensures HasUserWeightsLine(a + b, uuid) <==> HasUserWeightsLine(a, uuid) || HasUserWeightsLine(b, uuid)
  {
    if |b| == 0 {
      assert a + b == a;
    } else {
      assert (a + b)[..|a + b| - 1] == a + b[..|b| - 1];
      HasUserWeightsLineAppend(a, b[..|b| - 1], uuid);
    }
  }

  /** Rewriting a file in which the user has one line rewrites that line only. */
  lemma UpdatedAroundLine(uuid: string, before: seq<string>, line: string, after: seq<string>, date: string, entry: string)
    requires IsUserWeightsLine(line, uuid)
    requires !HasUserWeightsLine(before, uuid) && !HasUserWeightsLine(after, uuid)
    ensures UpdatedWeights(before + [line] + after, uuid, date, entry)
      == before + [UpdatedWeightsLine(line, uuid, date, entry)] + after
  {
    var lines := before + [line] + after;
    assert HasUserWeightsLine([line], uuid) by {
      assert [line][..0] == [];
    }
    HasUserWeightsLineAppend(before, [line], uuid);
    HasUserWeightsLineAppend(before + [line], after, uuid);
    assert UpdatedWeights(lines, uuid, date, entry) == UpdatedWeightsAll(lines, uuid, date, entry) + [];
    UpdatedWeightsAllAppend(before + [line], after, uuid, date, entry);
    UpdatedWeightsAllAppend(before, [line], uuid, date, entry);
    UpdatedWeightsAllOfOthers(before, uuid, date, entry);
    UpdatedWeightsAllOfOthers(after, uuid, date, entry);
  }

  /** The history of a file in which the user has one line is that line's. */
  lemma FileEntriesAroundLine(nf: Numerals, uuid: string, before: seq<string>, line: string, after: seq<string>)
    requires !HasUserWeightsLine(before, uuid) && !HasUserWeightsLine(after, uuid)
    ensures FileEntries(nf, uuid, before + [line] + after) == LineEntries(nf, uuid, line)
  {
    FileEntriesAppend(nf, uuid, before + [line], after);
    FileEntriesAppend(nf, uuid, before, [line]);
    FileEntriesOfOthers(nf, uuid, before);
    FileEntriesOfOthers(nf, uuid, after);
    assert [line][..0] == [];
  }

  /**
   * The weight saved on the profile screen shows up on the history screen:
   * in a file where the user has one line, saving a weight for a new date
   * adds exactly that entry at the end of the history, and saving one for a
   * date already saved leaves the history as it was.
   */
  lemma HistoryAfterSave(nf: Numerals, uuid: string, before: seq<string>, line: string, after: seq<string>,
                         date: string, weight: real)
    requires RoundTrips(nf, weight) && ';' !in date && '~' !in date
    requires IsUserWeightsLine(line, uuid)
    requires !HasUserWeightsLine(before, uuid) && !HasUserWeightsLine(after, uuid)
    ensures var lines := before + [line] + after;
      FileEntries(nf, uuid, UpdatedWeights(lines, uuid, date, WeightEntryText(nf, date, weight)))
        == FileEntries(nf, uuid, lines)
           + (if DateSaved(Split(line, ';'), date) then [] else [WeightEntry(date, weight)])
  {
    var entry := WeightEntryText(nf, date, weight);
    UpdatedAroundLine(uuid, before, line, after, date, entry);
    FileEntriesAroundLine(nf, uuid, before, UpdatedWeightsLine(line, uuid, date, entry), after);
    FileEntriesAroundLine(nf, uuid, before, line, after);
    LineEntriesAfterUpdate(nf, uuid, line, date, weight);
  }

  /** The line written for a user's first weight holds just that entry. */
  lemma NewLineEntries(nf: Numerals, uuid: string, date: string, weight: real)
    requires RoundTrips(nf, weight) && ';' !in uuid && ';' !in date && '~' !in date
    ensures LineEntries(nf, uuid, uuid + ";" + WeightEntryText(nf, date, weight)) == [WeightEntry(date, weight)]
  {
    var entry := WeightEntryText(nf, date, weight);
    var line := uuid + ";" + entry;
    ShowFreeOfSeparators(nf, weight);
    assert StartsWith(entry, date + "~");
    NewWeightsLineKept(uuid, date, entry, entry);
    assert Join([uuid, entry], ';') == line;
    SplitOfJoin([uuid, entry], ';');
    assert Split(line, ';')[1..] == [entry];
    FieldEntriesSnoc(nf, [], entry);
    assert [] + [entry] == [entry];
    EntryOfText(nf, date, weight);
  }

  /** The first weight of a user, saved into a file without a line of theirs, is the whole history. */
  lemma HistoryAfterFirstSave(nf: Numerals, uuid: string, lines: seq<string>, date: string, weight: real)
    requires RoundTrips(nf, weight) && ';' !in uuid && ';' !in date && '~' !in date
    requires !HasUserWeightsLine(lines, uuid)
    ensures FileEntries(nf, uuid, UpdatedWeights(lines, uuid, date, WeightEntryText(nf, date, weight)))
      == [WeightEntry(date, weight)]
  {
    var entry := WeightEntryText(nf, date, weight);
    var line := uuid + ";" + entry;
    UpdatedWeightsAllOfOthers(lines, uuid, date, entry);
    assert UpdatedWeights(lines, uuid, date, entry) == lines + [line] + [];
    FileEntriesAroundLine(nf, uuid, lines, line, []);
    NewLineEntries(nf, uuid, date, weight);
  }
}
