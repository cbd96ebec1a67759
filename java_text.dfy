// Java's java.lang.String operations that the Fitness Tracker relies on,
// stated over Dafny strings (sequences of UTF-16 code units).

module JavaText {

  /** Concatenation is associative; stated once so that proofs need not rediscover it. */
  lemma AppendAssoc<T>(a: seq<T>, b: seq<T>, c: seq<T>)
    ensures a + b + c == a + (b + c)
  {
  }

  /** `t` occurs in `s` starting at index `q`. */
  predicate OccursAt(s: string, t: string, q: int)
  {
    0 <= q && q + |t| <= |s| && s[q..q + |t|] == t
  }

  /** `s.indexOf(t, from)`: the first index at or after `from` where `t` occurs, or -1. */
  function IndexOfFrom(s: string, t: string, from: nat): int
    decreases |s| - from
  {
    if from + |t| > |s| then -1
    else if s[from..from + |t|] == t then from
    else IndexOfFrom(s, t, from + 1)
  }

  /** `IndexOfFrom` finds the first occurrence at or after `from`, and -1 means there is none. */
  lemma {:induction false} IndexOfFromSpec(s: string, t: string, from: nat)
    ensures var r := IndexOfFrom(s, t, from);
      (r == -1 || (from <= r && OccursAt(s, t, r)))
      && (r == -1 ==> forall q :: from <= q ==> !OccursAt(s, t, q))
      && (r != -1 ==> forall q :: from <= q < r ==> !OccursAt(s, t, q))
    decreases |s| - from
  {
    if from + |t| <= |s| && s[from..from + |t|] != t {
      IndexOfFromSpec(s, t, from + 1);
    }
  }

  /** `s.indexOf(t)`: the first place `t` occurs, or -1 when it occurs nowhere. */
  function IndexOf(s: string, t: string): (r: int)
    ensures r == -1 || (0 <= r && OccursAt(s, t, r))
    ensures r == -1 ==> forall q :: 0 <= q ==> !OccursAt(s, t, q)
    ensures r != -1 ==> forall q :: 0 <= q < r ==> !OccursAt(s, t, q)
  {
    IndexOfFromSpec(s, t, 0);
    IndexOfFrom(s, t, 0)
  }

  /** `s.contains(t)`. */
  predicate Contains(s: string, t: string)
  {
    IndexOf(s, t) >= 0
  }

  /** `contains` holds exactly when `t` occurs somewhere in `s`. */
  lemma ContainsIff(s: string, t: string)
    ensures Contains(s, t) <==> exists q :: OccursAt(s, t, q)
  {
    IndexOfFromSpec(s, t, 0);
  }

  /** A string contains what it ends with. */
  lemma ContainsSuffix(s: string, t: string)
    ensures Contains(s + t, t)
  {
    assert OccursAt(s + t, t, |s|);
    ContainsIff(s + t, t);
  }

  /** Appending to a string keeps what it contains. */
  lemma ContainsExtended(s: string, u: string, t: string)
    requires Contains(s, t)
    ensures Contains(s + u, t)
  {
    ContainsIff(s, t);
    var q :| OccursAt(s, t, q);
    assert (s + u)[q..q + |t|] == s[q..q + |t|];
    assert OccursAt(s + u, t, q);
    ContainsIff(s + u, t);
  }

  /** A string that contains `p + t` contains `t`. */
  lemma ContainsOfLonger(s: string, p: string, t: string)
    requires Contains(s, p + t)
    ensures Contains(s, t)
  {
    ContainsIff(s, p + t);
    var q :| OccursAt(s, p + t, q);
    assert s[q + |p|..q + |p| + |t|] == (p + t)[|p|..];
    assert OccursAt(s, t, q + |p|);
    ContainsIff(s, t);
  }

  /** `s.startsWith(p)`. */
  predicate StartsWith(s: string, p: string)
  {
    |p| <= |s| && s[..|p|] == p
  }

  /** The first occurrence at or after `from` is at `p` when `t` occurs at `p` and nowhere in between. */
  lemma {:induction false} IndexOfFromIs(s: string, t: string, from: nat, p: nat)
    requires from <= p && OccursAt(s, t, p)
    requires forall q :: from <= q < p ==> !OccursAt(s, t, q)
    ensures IndexOfFrom(s, t, from) == p
    decreases p - from
  {
    if from < p {
      assert !OccursAt(s, t, from);
      IndexOfFromIs(s, t, from + 1, p);
    }
  }

  /**
   * No occurrence of `t` can start inside `r` in `pre + r + q + rest` when the
   * character `t[j]` (its first occurrence in `t`) appears neither in `r` nor in
   * the first `j` characters of `q`.
   */
  lemma NoOccurrenceIn(pre: string, r: string, q: string, rest: string, t: string, j: nat)
    requires j < |t| && j <= |q|
    requires t[j] !in r && t[j] !in q[..j]
    ensures forall k :: |pre| <= k < |pre| + |r| ==> !OccursAt(pre + r + q + rest, t, k)
  {
    var s := pre + r + q + rest;
    forall k | |pre| <= k < |pre| + |r|
      ensures !OccursAt(s, t, k)
    {
      if k + |t| <= |s| {
        if k + j < |pre| + |r| {
          assert s[k + j] == r[k + j - |pre|];
        } else {
          assert s[k + j] == q[k + j - |pre| - |r|];
          assert q[..j][k + j - |pre| - |r|] == q[k + j - |pre| - |r|];
        }
        assert s[k..k + |t|][j] == s[k + j];
      }
    }
  }

  /**
   * `t` is found right after `v` when searching from the end of `u`, because
   * its character `t[j]` appears neither in `v` nor earlier in `t`.
   */
  lemma FoundAfter(u: string, v: string, t: string, w: string, j: nat)
    requires j < |t| && t[j] !in v && t[j] !in t[..j]
    ensures IndexOfFrom(u + v + t + w, t, |u|) == |u| + |v|
  {
    var s := u + v + t + w;
    NoOccurrenceIn(u, v, t + w, "", t, j);
    assert u + v + (t + w) + "" == s;
    assert s[|u| + |v|..|u| + |v| + |t|] == t;
    IndexOfFromIs(s, t, |u|, |u| + |v|);
  }

  /** The same with two stretches before `t`, each ruled out by its own character of `t`. */
  lemma FoundAfter2(u: string, v1: string, v2: string, t: string, w: string, j1: nat, j2: nat)
    requires j1 < |t| && j1 <= |v2| && t[j1] !in v1 && t[j1] !in v2[..j1]
    requires j2 < |t| && t[j2] !in v2 && t[j2] !in t[..j2]
    ensures IndexOfFrom(u + v1 + v2 + t + w, t, |u|) == |u| + |v1| + |v2|
  {
    var s := u + v1 + v2 + t + w;
    NoOccurrenceIn(u, v1, v2 + t + w, "", t, j1);
    assert (v2 + t + w)[..j1] == v2[..j1];
    assert u + v1 + (v2 + t + w) + "" == s;
    NoOccurrenceIn(u + v1, v2, t + w, "", t, j2);
    assert u + v1 + v2 + (t + w) + "" == s;
    assert s[|u| + |v1| + |v2|..|u| + |v1| + |v2| + |t|] == t;
    IndexOfFromIs(s, t, |u|, |u| + |v1| + |v2|);
  }

  // ----- whitespace trimming -----

  /** The characters `String.trim` removes: code units at or below the space. */
  predicate IsTrimmed(c: char)
  {
    c <= ' '
  }

  /** The position of the first character at or after `i` that trimming keeps, or `|s|`. */
  function TrimStartIndex(s: string, i: nat): (k: nat)
    requires i <= |s|
    ensures i <= k <= |s|
    decreases |s| - i
  {
    if i < |s| && IsTrimmed(s[i]) then TrimStartIndex(s, i + 1) else i
  }

  /** The position just after the last character before `j` that trimming keeps, or 0. */
  function TrimEndIndex(s: string, j: nat): (k: nat)
    requires j <= |s|
    ensures k <= j
  {
    if j > 0 && IsTrimmed(s[j - 1]) then TrimEndIndex(s, j - 1) else j
  }

  function TrimStart(s: string): string
  {
    s[TrimStartIndex(s, 0)..]
  }

  function TrimEnd(s: string): string
  {
    s[..TrimEndIndex(s, |s|)]
  }

  /** `s.trim()`: `s` without its leading and trailing characters at or below the space. */
  function Trim(s: string): string
  {
    TrimEnd(TrimStart(s))
  }

  /** A string whose ends are not whitespace is its own trim. */
  predicate TrimFixed(s: string)
  {
    s == [] || (!IsTrimmed(s[0]) && !IsTrimmed(s[|s| - 1]))
  }

  lemma TrimOfFixed(s: string)
    requires TrimFixed(s)
    ensures Trim(s) == s
  {
  }

  /** Trimming stops at the first character it keeps. */
  lemma {:induction false} TrimStartIndexKeeps(s: string, i: nat)
    requires i <= |s|
    ensures var k := TrimStartIndex(s, i); k < |s| ==> !IsTrimmed(s[k])
    ensures forall q :: i <= q < TrimStartIndex(s, i) ==> IsTrimmed(s[q])
    decreases |s| - i
  {
    if i < |s| && IsTrimmed(s[i]) {
      TrimStartIndexKeeps(s, i + 1);
    }
  }

  /** Trimming from the end stops after the last character it keeps. */
  lemma {:induction false} TrimEndIndexKeeps(s: string, j: nat)
    requires j <= |s|
    ensures var k := TrimEndIndex(s, j); k > 0 ==> !IsTrimmed(s[k - 1])
    ensures forall q :: TrimEndIndex(s, j) <= q < j ==> IsTrimmed(s[q])
  {
    if j > 0 && IsTrimmed(s[j - 1]) {
      TrimEndIndexKeeps(s, j - 1);
    }
  }

  /** What `trim` returns has no whitespace at either end. */
  lemma TrimEnds(s: string)
    ensures TrimFixed(Trim(s))
  {
    var a := TrimStart(s);
    var b := TrimEnd(a);
    TrimStartIndexKeeps(s, 0);
    TrimEndIndexKeeps(a, |a|);
    if b != [] {
      assert b[0] == a[0];
    }
  }

  lemma TrimIdempotent(s: string)
    ensures Trim(Trim(s)) == Trim(s)
  {
    TrimEnds(s);
    TrimOfFixed(Trim(s));
  }

  lemma TrimOfSpaced(s: string)
    requires TrimFixed(s)
    ensures Trim(s + " ") == s && Trim(" " + s) == s && Trim(" " + s + " ") == s
  {
    var a := s + " ";
    assert TrimEndIndex(a, |a|) == TrimEndIndex(a, |s|) == |s|;
    assert a[..|s|] == s;
    if s == [] {
      assert TrimStartIndex(a, 0) == TrimStartIndex(a, 1) == 1;
    } else {
      assert a[0] == s[0];
    }
    var b := " " + s;
    assert TrimStartIndex(b, 0) == TrimStartIndex(b, 1) == 1;
    assert b[1..] == s;
    var c := " " + s + " ";
    assert TrimStartIndex(c, 0) == TrimStartIndex(c, 1);
    assert c[1..] == a;
    if s == [] {
      assert TrimStartIndex(c, 1) == TrimStartIndex(c, 2) == 2;
    } else {
      assert c[1] == s[0];
    }
  }

  // ----- replacement -----

  /** `s.replace(target, replacement)`: every non-overlapping occurrence, left to right. */
  function Replace(s: string, target: string, replacement: string): string
    requires |target| > 0
    decreases |s|
  {
    if |s| < |target| then s
    else if s[..|target|] == target then replacement + Replace(s[|target|..], target, replacement)
    else [s[0]] + Replace(s[1..], target, replacement)
  }

  /** When `target` cannot start inside `s`, replacing it in `s + target` only removes the tail. */
  lemma {:induction false} ReplaceSuffix(s: string, target: string)
    requires |target| > 0 && target[0] !in s
    ensures Replace(s + target, target, "") == s
    decreases |s|
  {
    var a := s + target;
    if |s| == 0 {
      assert a[..|target|] == target;
      assert a[|target|..] == [];
    } else {
      assert a[..|target|] != target by {
        assert a[0] == s[0];
      }
      assert a[1..] == s[1..] + target;
      ReplaceSuffix(s[1..], target);
      assert [s[0]] + s[1..] == s;
    }
  }

  // ----- case-insensitive comparison -----

  /** ASCII upper-casing, as `Character.toUpperCase` does on the letters a to z. */
  function ToUpper(c: char): char
  {
    if 'a' <= c <= 'z' then (c as int - 32) as char else c
  }

  /** `a.equalsIgnoreCase(b)` restricted to the ASCII letters. */
  predicate EqualsIgnoreCase(a: string, b: string)
  {
    |a| == |b| && forall i :: 0 <= i < |a| ==> ToUpper(a[i]) == ToUpper(b[i])
  }

  /** The characters a string equal to `b` up to case can hold. */
  lemma EqualsIgnoreCaseChars(a: string, b: string, c: char)
    requires EqualsIgnoreCase(a, b) && c in a
    ensures c in b || ToUpper(c) in b || exists i :: 0 <= i < |b| && ToUpper(b[i]) == c
  {
    var i :| 0 <= i < |a| && a[i] == c;
    assert ToUpper(a[i]) == ToUpper(b[i]);
    if 'a' <= c <= 'z' {
      assert ToUpper(c) == ToUpper(b[i]);
      if 'a' <= b[i] <= 'z' {
        assert b[i] == c;
      } else {
        assert b[i] == ToUpper(c);
      }
    } else {
      assert c == ToUpper(b[i]);
    }
  }

  /** A string equal to `b` up to case cannot hold a character whose upper case no character of `b` has. */
  lemma NotInUpToCase(a: string, b: string, c: char)
    requires EqualsIgnoreCase(a, b)
    requires forall i :: 0 <= i < |b| ==> ToUpper(b[i]) != ToUpper(c)
    ensures c !in a
  {
    forall i | 0 <= i < |a|
      ensures a[i] != c
    {
      assert ToUpper(a[i]) == ToUpper(b[i]);
    }
  }

  // ----- splitting and joining -----

  /** The position of the first `c` in `s`, or `|s|` when there is none. */
  function FindChar(s: string, c: char): (r: nat)
    ensures r <= |s| && c !in s[..r]
    ensures r < |s| ==> s[r] == c
  {
    if |s| == 0 || s[0] == c then 0
    else
      assert s[..1 + FindChar(s[1..], c)] == [s[0]] + s[1..][..FindChar(s[1..], c)];
      1 + FindChar(s[1..], c)
  }

  /** All the fields of `s` between occurrences of `c`, empty ones included. */
  function Fields(s: string, c: char): (r: seq<string>)
    ensures |r| >= 1
    ensures forall i :: 0 <= i < |r| ==> c !in r[i]
    decreases |s|
  {
    var k := FindChar(s, c);
    if k == |s| then [s] else [s[..k]] + Fields(s[k + 1..], c)
  }

  /** The fields with the trailing empty ones removed. */
  function DropTrailingEmpty(fs: seq<string>): (r: seq<string>)
    ensures |r| <= |fs| && r == fs[..|r|]
    ensures r == [] || r[|r| - 1] != ""
    ensures forall i :: |r| <= i < |fs| ==> fs[i] == ""
  {
    if |fs| > 0 && fs[|fs| - 1] == "" then DropTrailingEmpty(fs[..|fs| - 1]) else fs
  }

  /**
   * `s.split(c)` for a separator that is not a regular-expression metacharacter:
   * the whole string when `c` does not occur, otherwise the fields with the
   * trailing empty ones removed (so the result may be empty).
   */
  function Split(s: string, c: char): (r: seq<string>)
    ensures forall i :: 0 <= i < |r| ==> c !in r[i]
    ensures r == DropTrailingEmpty(Fields(s, c)) || r == [s]
  {
    if c !in s then [s] else DropTrailingEmpty(Fields(s, c))
  }

  /** `String.join(c, fs)`. */
  function Join(fs: seq<string>, c: char): string
    requires |fs| >= 1
  {
    if |fs| == 1 then fs[0] else fs[0] + [c] + Join(fs[1..], c)
  }

  /** Splitting a joined list of separator-free fields gives the fields back. */
  lemma {:induction false} FieldsOfJoin(fs: seq<string>, c: char)
    requires |fs| >= 1
    requires forall i :: 0 <= i < |fs| ==> c !in fs[i]
    ensures Fields(Join(fs, c), c) == fs
  {
    if |fs| == 1 {
      FieldsOfFree(fs[0], c);
    } else {
      var tail := fs[1..];
      assert forall i :: 0 <= i < |tail| ==> c !in tail[i] by {
        forall i | 0 <= i < |tail|
          ensures c !in tail[i]
        {
          assert tail[i] == fs[i + 1];
        }
      }
      FieldsOfJoin(tail, c);
      FieldsOfSeparated(fs[0], Join(tail, c), c);
      assert [fs[0]] + tail == fs;
    }
  }

  /** A string without the separator is a single field. */
  lemma FieldsOfFree(s: string, c: char)
    requires c !in s
    ensures Fields(s, c) == [s]
  {
    assert FindChar(s, c) == |s|;
  }

  /** A separator-free field followed by the separator comes off as the first field. */
  lemma FieldsOfSeparated(a: string, b: string, c: char)
    requires c !in a
    ensures Fields(a + [c] + b, c) == [a] + Fields(b, c)
  {
    var s := a + [c] + b;
    assert s == a + ([c] + b);
    FindCharOfAppend(a, [c] + b, c);
    assert s[..|a|] == a;
    assert s[|a| + 1..] == b;
  }

  lemma FindCharOfAppend(a: string, b: string, c: char)
    requires c !in a && |b| > 0 && b[0] == c
    ensures FindChar(a + b, c) == |a|
  {
    if |a| > 0 {
      assert (a + b)[1..] == a[1..] + b;
      FindCharOfAppend(a[1..], b, c);
    }
  }

  /** `c` occurs in a join of at least two fields. */
  lemma JoinHasSeparator(fs: seq<string>, c: char)
    requires |fs| >= 2
    ensures c in Join(fs, c)
  {
    assert Join(fs, c)[|fs[0]|] == c;
  }

  /** The round trip of `split` and `join` (the last field must be non-empty, as `split` drops trailing empty fields). */
  lemma SplitOfJoin(fs: seq<string>, c: char)
    requires |fs| >= 1 && fs[|fs| - 1] != ""
    requires forall i :: 0 <= i < |fs| ==> c !in fs[i]
    ensures Split(Join(fs, c), c) == fs
  {
    FieldsOfJoin(fs, c);
    if |fs| >= 2 {
      JoinHasSeparator(fs, c);
    }
  }

  /** A one-field join of a separator-free string splits back to that string, even when it is empty. */
  lemma SplitOfSingle(s: string, c: char)
    requires c !in s
    ensures Split(s, c) == [s]
  {
  }

  /** Joining the fields of `s` gives `s` back. */
  lemma {:induction false} JoinOfFields(s: string, c: char)
    ensures Join(Fields(s, c), c) == s
    decreases |s|
  {
    var k := FindChar(s, c);
    var fs := Fields(s, c);
    if k < |s| {
      var rest := s[k + 1..];
      JoinOfFields(rest, c);
      assert fs == [s[..k]] + Fields(rest, c);
      assert fs[0] == s[..k] && fs[1..] == Fields(rest, c);
      assert Join(fs, c) == s[..k] + [c] + Join(Fields(rest, c), c);
      assert s == s[..k] + [c] + rest;
    } else {
      assert fs == [s];
    }
  }

  /** The fields `split` keeps are the leading fields of `s`. */
  lemma SplitIsPrefixOfFields(s: string, c: char)
    ensures var r := Split(s, c); var fs := Fields(s, c); |r| <= |fs| && r == fs[..|r|]
  {
    if c !in s {
      assert FindChar(s, c) == |s|;
    }
  }

  /** `c + f` for every field `f`, in order: what a `StringBuilder` appends after the first field. */
  function SeparatedTail(fs: seq<string>, c: char): string
  {
    if |fs| == 0 then "" else [c] + fs[0] + SeparatedTail(fs[1..], c)
  }

  /** A join is the first field followed by the separated rest. */
  lemma {:induction false} JoinAsHeadAndTail(fs: seq<string>, c: char)
    requires |fs| >= 1
    ensures Join(fs, c) == fs[0] + SeparatedTail(fs[1..], c)
  {
    if |fs| > 1 {
      JoinAsHeadAndTail(fs[1..], c);
      assert fs[1..][1..] == fs[2..];
    }
  }

  /** Appending one more separated field. */
  lemma {:induction false} SeparatedTailAppend(fs: seq<string>, f: string, c: char)
    ensures SeparatedTail(fs + [f], c) == SeparatedTail(fs, c) + [c] + f
  {
    if |fs| > 0 {
      assert (fs + [f])[1..] == fs[1..] + [f];
      SeparatedTailAppend(fs[1..], f, c);
    }
  }

  /** A join with one more field. */
  lemma JoinAppend(fs: seq<string>, f: string, c: char)
    requires |fs| >= 1
    ensures Join(fs + [f], c) == Join(fs, c) + [c] + f
  {
    JoinAsHeadAndTail(fs + [f], c);
    JoinAsHeadAndTail(fs, c);
    assert (fs + [f])[1..] == fs[1..] + [f];
    SeparatedTailAppend(fs[1..], f, c);
  }

  /** Appending a separator and a non-empty field adds that field after all the fields, empty ones included. */
  lemma SplitAppendedField(s: string, u: string, c: char)
    requires c !in u && u != ""
    ensures Split(s + [c] + u, c) == Fields(s, c) + [u]
  {
    var fs := Fields(s, c) + [u];
    JoinOfFields(s, c);
    JoinAppend(Fields(s, c), u, c);
    assert forall i :: 0 <= i < |fs| ==> c !in fs[i] by {
      forall i | 0 <= i < |fs|
        ensures c !in fs[i]
      {
        if i < |fs| - 1 {
          assert fs[i] == Fields(s, c)[i];
        }
      }
    }
    SplitOfJoin(fs, c);
  }

  /** A string with a character that trimming keeps does not trim to nothing. */
  lemma TrimKeepsVisible(s: string, i: nat)
    requires i < |s| && !IsTrimmed(s[i])
    ensures Trim(s) != ""
  {
    TrimStartIndexKeeps(s, 0);
    var k := TrimStartIndex(s, 0);
    var a := s[k..];
    assert a[i - k] == s[i];
    TrimEndIndexKeeps(a, |a|);
  }

  /** What `split` returns, when it has at least two fields, does not end in an empty field. */
  lemma SplitLastNonEmpty(s: string, c: char)
    requires |Split(s, c)| >= 2
    ensures Split(s, c)[|Split(s, c)| - 1] != ""
  {
  }

  /** Joining what `split` returns and splitting again gives the same fields. */
  lemma SplitOfJoinOfSplit(s: string, c: char)
    requires |Split(s, c)| >= 1
    ensures Split(Join(Split(s, c), c), c) == Split(s, c)
  {
    var r := Split(s, c);
    if c in s {
      SplitOfJoin(r, c);
    } else {
      SplitOfSingle(s, c);
    }
  }
}
