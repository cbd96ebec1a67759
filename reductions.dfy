// The stream reductions the statistics use: sums, and `max` / `min` with a
// `Double.compare` comparator, which keep the first of several equal extremes.

module Reductions {
  import opened JavaNumbers

  /** `xs.stream().mapToDouble(f).sum()`. */
  function SumOf<T>(xs: seq<T>, f: T -> real): real
  {
    if |xs| == 0 then 0.0 else SumOf(xs[..|xs| - 1], f) + f(xs[|xs| - 1])
  }

  lemma {:induction false} SumOfAppend<T>(xs: seq<T>, ys: seq<T>, f: T -> real)
    ensures SumOf(xs + ys, f) == SumOf(xs, f) + SumOf(ys, f)
    decreases |ys|
  {
    if |ys| == 0 {
      assert xs + ys == xs;
    } else {
      assert (xs + ys)[..|xs + ys| - 1] == xs + ys[..|ys| - 1];
      SumOfAppend(xs, ys[..|ys| - 1], f);
    }
  }

  /** A sum of non-negative terms is non-negative. */
  lemma {:induction false} SumOfNonNegative<T>(xs: seq<T>, f: T -> real)
    requires forall i :: 0 <= i < |xs| ==> f(xs[i]) >= 0.0
    ensures SumOf(xs, f) >= 0.0
  {
    if |xs| > 0 {
      SumOfNonNegative(xs[..|xs| - 1], f);
    }
  }

  /** `k` is the position of the first element whose key no other element exceeds. */
  predicate IsFirstMax<T>(xs: seq<T>, key: T -> JDouble, k: int)
  {
    0 <= k < |xs|
    && (forall j :: 0 <= j < |xs| ==> Compare(key(xs[j]), key(xs[k])) <= 0)
    && (forall j :: 0 <= j < k ==> Compare(key(xs[j]), key(xs[k])) < 0)
  }

  /** `k` is the position of the first element whose key no other element is below. */
  predicate IsFirstMin<T>(xs: seq<T>, key: T -> JDouble, k: int)
  {
    0 <= k < |xs|
    && (forall j :: 0 <= j < |xs| ==> Compare(key(xs[j]), key(xs[k])) >= 0)
    && (forall j :: 0 <= j < k ==> Compare(key(xs[j]), key(xs[k])) > 0)
  }

  /**
   * The position `stream().max(comparator)` settles on: it folds from the left
   * and keeps the accumulated element unless the next one compares greater.
   */
  function MaxIndex<T>(xs: seq<T>, key: T -> JDouble): (k: nat)
    requires |xs| > 0
    ensures IsFirstMax(xs, key, k)
  {
    if |xs| == 1 then 0
    else
      var init := xs[..|xs| - 1];
      var acc := MaxIndex(init, key);
      assert forall j :: 0 <= j < |init| ==> init[j] == xs[j];
      var last := |xs| - 1;
      if Compare(key(xs[acc]), key(xs[last])) >= 0 then
        acc
      else
        assert forall j :: 0 <= j < last ==> Compare(key(xs[j]), key(xs[last])) < 0 by {
          forall j | 0 <= j < last
            ensures Compare(key(xs[j]), key(xs[last])) < 0
          {
            CompareFlip(key(xs[acc]), key(xs[last]));
            CompareStrict(key(xs[j]), key(xs[acc]), key(xs[last]));
          }
        }
        last
  }

  /** The position `stream().min(comparator)` settles on. */
  function MinIndex<T>(xs: seq<T>, key: T -> JDouble): (k: nat)
    requires |xs| > 0
    ensures IsFirstMin(xs, key, k)
  {
    if |xs| == 1 then 0
    else
      var init := xs[..|xs| - 1];
      var acc := MinIndex(init, key);
      assert forall j :: 0 <= j < |init| ==> init[j] == xs[j];
      var last := |xs| - 1;
      if Compare(key(xs[acc]), key(xs[last])) <= 0 then
        acc
      else
        assert forall j :: 0 <= j < last ==> Compare(key(xs[j]), key(xs[last])) > 0 by {
          forall j | 0 <= j < last
            ensures Compare(key(xs[j]), key(xs[last])) > 0
          {
            CompareFlip(key(xs[j]), key(xs[acc]));
            CompareFlip(key(xs[acc]), key(xs[last]));
            CompareFlip(key(xs[j]), key(xs[last]));
            CompareStrict(key(xs[last]), key(xs[acc]), key(xs[j]));
          }
        }
        last
  }

  lemma CompareStrict(a: JDouble, b: JDouble, c: JDouble)
    requires (Compare(a, b) <= 0 && Compare(b, c) < 0) || (Compare(a, b) < 0 && Compare(b, c) <= 0)
    ensures Compare(a, c) < 0
  {
  }

  /** There is only one first maximum, so `MaxIndex` is the reference definition's unique witness. */
  lemma FirstMaxUnique<T>(xs: seq<T>, key: T -> JDouble, j: int, k: int)
    requires IsFirstMax(xs, key, j) && IsFirstMax(xs, key, k)
    ensures j == k
  {
    if j < k {
      CompareFlip(key(xs[j]), key(xs[k]));
    } else if k < j {
      CompareFlip(key(xs[k]), key(xs[j]));
    }
  }

  lemma FirstMinUnique<T>(xs: seq<T>, key: T -> JDouble, j: int, k: int)
    requires IsFirstMin(xs, key, j) && IsFirstMin(xs, key, k)
    ensures j == k
  {
    if j < k {
      CompareFlip(key(xs[j]), key(xs[k]));
    } else if k < j {
      CompareFlip(key(xs[k]), key(xs[j]));
    }
  }

  /** `stream().max(comparator)` with `orElse(null)`, the null being `None`. */
  function MaxBy<T>(xs: seq<T>, key: T -> JDouble): (r: Option<T>)
    ensures r.None? <==> |xs| == 0
    ensures r.Some? ==> exists k :: IsFirstMax(xs, key, k) && r.value == xs[k]
  {
    if |xs| == 0 then None else Some(xs[MaxIndex(xs, key)])
  }

  /** `stream().min(comparator)` with `orElse(null)`. */
  function MinBy<T>(xs: seq<T>, key: T -> JDouble): (r: Option<T>)
    ensures r.None? <==> |xs| == 0
    ensures r.Some? ==> exists k :: IsFirstMin(xs, key, k) && r.value == xs[k]
  {
    if |xs| == 0 then None else Some(xs[MinIndex(xs, key)])
  }
}
