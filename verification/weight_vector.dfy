/**
 Arithmetic on weight vectors, the `float[]` a scorer hands to an explorer,
 with `real` standing for `float`. Sums are accumulated left to right, in the
 order the explorer's loops add the entries up.
 */
module WeightVector {

  /** Sum of `s`, adding the entries from first to last. */
  function Sum(s: seq<real>): real
  {
    if |s| == 0 then 0.0 else Sum(s[..|s| - 1]) + s[|s| - 1]
  }

  /** Sum of the first `k` entries of `s`. */
  function PrefixSum(s: seq<real>, k: nat): real
    requires k <= |s|
  {
    Sum(s[..k])
  }

  predicate NonNegative(s: seq<real>)
  {
    forall j :: 0 <= j < |s| ==> 0.0 <= s[j]
  }

  predicate AllZero(s: seq<real>)
  {
    forall j :: 0 <= j < |s| ==> s[j] == 0.0
  }

  /** Every entry of `s` divided by `total`. */
  function Normalize(s: seq<real>, total: real): (r: seq<real>)
    requires total != 0.0
    ensures |r| == |s|
    ensures forall j :: 0 <= j < |s| ==> r[j] == s[j] / total
  {
    seq(|s|, j requires 0 <= j < |s| => s[j] / total)
  }

  /** One more entry adds exactly that entry to the running sum. */
  lemma PrefixSumStep(s: seq<real>, k: nat)
    requires k < |s|
    ensures PrefixSum(s, k + 1) == PrefixSum(s, k) + s[k]
  {
    assert s[..k + 1][..k] == s[..k];
  }

  /** With no negative entry, running sums never decrease. */
  lemma {:induction false} PrefixSumMonotone(s: seq<real>, i: nat, j: nat)
    requires NonNegative(s)
    requires i <= j <= |s|
    ensures PrefixSum(s, i) <= PrefixSum(s, j)
    decreases j - i
  {
    if i < j {
      PrefixSumStep(s, j - 1);
      PrefixSumMonotone(s, i, j - 1);
    }
  }

  /** With no negative entry, every entry is bounded by the whole sum. */
  lemma EntryAtMostSum(s: seq<real>, k: nat)
    requires NonNegative(s)
    requires k < |s|
    ensures 0.0 <= s[k] <= Sum(s)
  {
    PrefixSumStep(s, k);
    PrefixSumMonotone(s, 0, k);
    PrefixSumMonotone(s, k + 1, |s|);
    assert s[..|s|] == s;
  }

  /** A sum of non-negative entries is zero exactly when every entry is. */
  lemma {:induction false} ZeroSumIffAllZero(s: seq<real>)
    requires NonNegative(s)
    ensures 0.0 <= Sum(s)
    ensures Sum(s) == 0.0 <==> AllZero(s)
  {
    if |s| > 0 {
      var n := |s| - 1;
      var init := s[..n];
      assert NonNegative(init);
      ZeroSumIffAllZero(init);
      if Sum(s) == 0.0 {
        assert s[n] == 0.0 && Sum(init) == 0.0;
        forall j | 0 <= j < |s|
          ensures s[j] == 0.0
        {
          if j < n {
            assert s[j] == init[j];
          }
        }
      } else {
        assert !AllZero(init) || s[n] != 0.0;
      }
    }
  }

  /** Dividing every entry by `total` divides the sum by `total`. */
  lemma {:induction false} SumNormalize(s: seq<real>, total: real)
    requires total != 0.0
    ensures Sum(Normalize(s, total)) == Sum(s) / total
  {
    if |s| > 0 {
      var n := |s| - 1;
      var ns := Normalize(s, total);
      assert ns[..n] == Normalize(s[..n], total);
      SumNormalize(s[..n], total);
      assert Sum(ns) == Sum(s[..n]) / total + s[n] / total;
      assert Sum(s[..n]) / total + s[n] / total == (Sum(s[..n]) + s[n]) / total;
    }
  }

  /** Normalising a non-negative vector by a positive total keeps it non-negative. */
  lemma NormalizedIsNonNegative(s: seq<real>, total: real)
    requires NonNegative(s) && 0.0 < total
    ensures NonNegative(Normalize(s, total))
  {
    var ns := Normalize(s, total);
    forall j | 0 <= j < |ns|
      ensures 0.0 <= ns[j]
    {
      assert ns[j] == s[j] / total;
    }
  }

  /**
   Normalising a non-negative vector by its positive sum yields a
   non-negative vector whose running sums climb to exactly 1 and never beyond.
   */
  lemma NormalizedIsDistribution(s: seq<real>)
    requires NonNegative(s) && !AllZero(s)
    ensures 0.0 < Sum(s)
    ensures NonNegative(Normalize(s, Sum(s)))
    ensures Sum(Normalize(s, Sum(s))) == 1.0
    ensures forall k :: 0 <= k <= |s| ==> PrefixSum(Normalize(s, Sum(s)), k) <= 1.0
  {
    ZeroSumIffAllZero(s);
    var total := Sum(s);
    var ns := Normalize(s, total);
    NormalizedIsNonNegative(s, total);
    SumNormalize(s, total);
    DivSelf(total);
    assert Sum(ns) == 1.0;
    assert ns[..|ns|] == ns;
    forall k | 0 <= k <= |s|
      ensures PrefixSum(ns, k) <= 1.0
    {
      PrefixSumMonotone(ns, k, |ns|);
    }
  }

  /**
   If a positive `draw` is reached by the running sum through index `k` but
   not by the one before it, entry `k` is positive.
   */
  lemma FirstReachingEntryIsPositive(s: seq<real>, draw: real, k: nat)
    requires k < |s|
    requires 0.0 < draw <= PrefixSum(s, k + 1)
    requires k == 0 || PrefixSum(s, k) < draw
    ensures 0.0 < s[k]
  {
    PrefixSumStep(s, k);
    assert s[..0] == [];
  }

  /** A quotient by a positive total has the sign of its dividend. */
  lemma QuotientSign(x: real, total: real)
    requires 0.0 < total
    ensures 0.0 < x / total <==> 0.0 < x
  {
    assert x == (x / total) * total;
  }

  /** A non-zero value divided by itself is 1. */
  lemma DivSelf(x: real)
    requires x != 0.0
    ensures x / x == 1.0
  {
  }
}
