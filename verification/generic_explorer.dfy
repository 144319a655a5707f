/**
 The generic explorer: given a scorer's weight vector it validates the
 weights, normalises them by their total (in place, in the caller's array)
 and draws one action, 1-based, whose running sum of normalised weights
 first reaches a uniform draw.

 `float` is modelled as `real`, so every sum and quotient is exact. The draw
 the explorer takes from its random generator is a parameter, and the model
 records how many draws a call consumes.
 */
module GenericExplorer {
  import opened WeightVector

  /** The C# `int`, the type of the declared action count. */
  newtype int32 = x: int | -0x8000_0000 <= x < 0x8000_0000

  /** `int.MaxValue`, the action count meaning "any number of weights". */
  const IntMaxValue: int32 := 0x7FFF_FFFF

  /** The three `ArgumentException`s `MapContext` can throw. */
  datatype ArgumentError =
    | LengthMismatch  // the number of weights differs from the declared action count
    | NegativeScore   // some weight is negative
    | ZeroTotal       // the weights add up to zero

  datatype Result<+T> = Success(value: T) | Failure(error: ArgumentError)

  /** The decision handed back: a 1-based action and the probability recorded with it. */
  datatype Decision = Decision(action: int, probability: real)

  /**
   Everything a call does that a caller can see: its outcome, the contents of
   the caller's weight array once the call returns, and the number of draws
   it took from the random generator.
   */
  datatype Call = Call(outcome: Result<Decision>, weights: seq<real>, draws: nat)

  /** The explorer's own state, the explore flag it inherits from its base class. */
  datatype Explorer = Explorer(explore: bool)

  /** The length check: skipped when the action count is the sentinel. */
  predicate LengthAccepted(weights: seq<real>, numActions: int32)
  {
    numActions == IntMaxValue || |weights| == numActions as int
  }

  /** Weights the explorer accepts. */
  predicate Valid(weights: seq<real>, numActions: int32)
  {
    LengthAccepted(weights, numActions) && NonNegative(weights) && !AllZero(weights)
  }

  /** `draw` is reached by the running sum of `nw` up to and including index `k`. */
  predicate Covers(nw: seq<real>, draw: real, k: nat)
    requires k < |nw|
  {
    draw <= PrefixSum(nw, k + 1)
  }

  /**
   The selection rule: `k` is the least index whose running sum reaches
   `draw`, or the last index when no running sum does.
   */
  predicate SelectedBy(nw: seq<real>, draw: real, k: int)
  {
    && 0 <= k < |nw|
    && (forall j :: 0 <= j < k ==> !Covers(nw, draw, j))
    && (Covers(nw, draw, k) || k == |nw| - 1)
  }

  /**
   The checks ahead of the draw: the length check, then a scan that rejects
   any negative weight while it adds them up, then the check of the total.
   On success the value is the total.
   */
  function Validate(weights: seq<real>, numActions: int32): (r: Result<real>)
    ensures r == Failure(LengthMismatch) <==> !LengthAccepted(weights, numActions)
    ensures r == Failure(NegativeScore) <==> LengthAccepted(weights, numActions) && !NonNegative(weights)
    ensures r == Failure(ZeroTotal) <==> LengthAccepted(weights, numActions) && NonNegative(weights) && AllZero(weights)
    ensures r.Success? <==> Valid(weights, numActions)
    ensures r.Success? ==> r.value == Sum(weights) && 0.0 < r.value && 0 < |weights|
  {
    if !LengthAccepted(weights, numActions) then Failure(LengthMismatch)
    else if !NonNegative(weights) then Failure(NegativeScore)
    else
      ZeroSumIffAllZero(weights);
      if Sum(weights) == 0.0 then Failure(ZeroTotal)
      else Success(Sum(weights))
  }

  /**
   The selection loop over normalised weights `nw`, resumed at index `i` with
   running sum `sum`: the index it breaks at, or `|nw|` when it runs out.
   */
  function Scan(nw: seq<real>, draw: real, i: nat, sum: real): (k: nat)
    requires i <= |nw|
    requires sum == PrefixSum(nw, i)
    ensures i <= k <= |nw|
    ensures k < |nw| ==> Covers(nw, draw, k)
    ensures forall j :: i <= j < k ==> !Covers(nw, draw, j)
    decreases |nw| - i
  {
    if i == |nw| then |nw|
    else
      PrefixSumStep(nw, i);
      if sum + nw[i] >= draw then i
      else Scan(nw, draw, i + 1, sum + nw[i])
  }

  /**
   The part of `MapContext` after a successful validation: one draw, the
   selection loop, and the array left normalised up to the selected index and
   raw after it. The reported probability is the selected action's normalised
   weight, or 0 when the scan ran out.
   */
  function Select(weights: seq<real>, draw: real): (c: Call)
    requires NonNegative(weights) && !AllZero(weights)
    ensures c.outcome.Success? && c.draws == 1
    ensures 0.0 < Sum(weights)
    ensures
      var total := Sum(weights);
      var nw := Normalize(weights, total);
      var k := c.outcome.value.action - 1;
      && 1 <= c.outcome.value.action <= |weights|
      && SelectedBy(nw, draw, k)
      && c.outcome.value.probability == (if Covers(nw, draw, k) then nw[k] else 0.0)
      && 0.0 <= c.outcome.value.probability <= 1.0
      && |c.weights| == |weights|
      && (forall j :: 0 <= j <= k ==> c.weights[j] == weights[j] / total)
      && (forall j :: k < j < |weights| ==> c.weights[j] == weights[j])
  {
    ZeroSumIffAllZero(weights);
    NormalizedIsDistribution(weights);
    var total := Sum(weights);
    var nw := Normalize(weights, total);
    var k := Scan(nw, draw, 0, 0.0);
    if k < |nw| then
      EntryAtMostSum(nw, k);
      Call(Success(Decision(k + 1, nw[k])), nw[..k + 1] + weights[k + 1..], 1)
    else
      Call(Success(Decision(|weights|, 0.0)), nw, 1)
  }

  /**
   `GenericExplorer.MapContext`. A rejected call leaves the array alone and
   takes no draw; an accepted one is `Select`.
   */
  function MapContext(weights: seq<real>, numActions: int32, draw: real): (c: Call)
    ensures c.outcome == Failure(LengthMismatch) <==> !LengthAccepted(weights, numActions)
    ensures c.outcome == Failure(NegativeScore) <==> LengthAccepted(weights, numActions) && !NonNegative(weights)
    ensures c.outcome == Failure(ZeroTotal) <==> LengthAccepted(weights, numActions) && NonNegative(weights) && AllZero(weights)
    ensures c.outcome.Failure? ==> c.weights == weights && c.draws == 0
    ensures c.outcome.Success? ==> Valid(weights, numActions) && c == Select(weights, draw)
  {
    match Validate(weights, numActions)
    case Failure(e) => Call(Failure(e), weights, 0)
    case Success(_) => Select(weights, draw)
  }

  /**
   The first loop of the C# `GenericExplorer.MapContext`: the length check,
   then the scan for negative weights that adds up the total.
   */
  method ValidateLoop(weights: seq<real>, numActions: int32) returns (r: Result<real>)
    ensures r == Validate(weights, numActions)
  {
    var numWeights := |weights|;
    if numActions != IntMaxValue && numWeights != numActions as int {
      return Failure(LengthMismatch);
    }
    var total := 0.0;
    var i := 0;
    while i < numWeights
      invariant 0 <= i <= numWeights
      invariant total == PrefixSum(weights, i)
      invariant forall j :: 0 <= j < i ==> 0.0 <= weights[j]
    {
      if weights[i] < 0.0 {
        return Failure(NegativeScore);
      }
      PrefixSumStep(weights, i);
      total := total + weights[i];
      i := i + 1;
    }
    assert weights[..numWeights] == weights;
    ZeroSumIffAllZero(weights);
    if total == 0.0 {
      return Failure(ZeroTotal);
    }
    return Success(total);
  }

  /**
   The second loop of the C# `GenericExplorer.MapContext`, normalising a copy
   of the weight array in place as it scans and breaking at the first running
   sum that reaches the draw.
   */
  method SelectLoop(weights: seq<real>, total: real, draw: real) returns (c: Call)
    requires NonNegative(weights) && !AllZero(weights)
    requires total == Sum(weights)
    ensures c == Select(weights, draw)
  {
    ZeroSumIffAllZero(weights);
    var w := weights;
    var numWeights := |w|;
    ghost var nw := Normalize(weights, total);
    var sum := 0.0;
    var actionProbability := 0.0;
    var actionIndex := numWeights - 1;
    var i := 0;
    while i < numWeights
      invariant 0 <= i <= numWeights
      invariant |w| == numWeights
      invariant forall j :: 0 <= j < i ==> w[j] == nw[j]
      invariant forall j :: i <= j < numWeights ==> w[j] == weights[j]
      invariant sum == PrefixSum(nw, i)
      invariant Scan(nw, draw, i, sum) == Scan(nw, draw, 0, 0.0)
      invariant actionIndex == numWeights - 1 && actionProbability == 0.0
    {
      w := w[i := w[i] / total];
      PrefixSumStep(nw, i);
      sum := sum + w[i];
      if sum >= draw {
        actionIndex := i;
        actionProbability := w[i];
        break;
      }
      i := i + 1;
    }
    actionIndex := actionIndex + 1;

    if i < numWeights {
      assert w == nw[..i + 1] + weights[i + 1..];
    } else {
      assert w == nw;
    }
    return Call(Success(Decision(actionIndex, actionProbability)), w, 1);
  }

  /** The C# `GenericExplorer.MapContext` as written: the two loops in sequence. */
  method MapContextLoop(weights: seq<real>, numActions: int32, draw: real) returns (c: Call)
    ensures c == MapContext(weights, numActions, draw)
  {
    var validated := ValidateLoop(weights, numActions);
    match validated
    case Failure(e) =>
      return Call(Failure(e), weights, 0);
    case Success(total) =>
      c := SelectLoop(weights, total, draw);
  }

  /** At most one index satisfies the selection rule, so the rule fixes the action. */
  lemma SelectionRuleIsUnique(nw: seq<real>, draw: real, k1: int, k2: int)
    requires SelectedBy(nw, draw, k1) && SelectedBy(nw, draw, k2)
    ensures k1 == k2
  {
  }

  /**
   After validation the selected zero-based index is exactly the one the rule
   picks: the least index whose running sum of normalised weights reaches the
   draw, or the last index when none does.
   */
  lemma ActionIffSelectionRule(weights: seq<real>, draw: real, k: int)
    requires NonNegative(weights) && !AllZero(weights)
    ensures 0.0 < Sum(weights)
    ensures Select(weights, draw).outcome.value.action == k + 1
        <==> SelectedBy(Normalize(weights, Sum(weights)), draw, k)
  {
    ZeroSumIffAllZero(weights);
    var nw := Normalize(weights, Sum(weights));
    var selected := Select(weights, draw).outcome.value.action - 1;
    assert SelectedBy(nw, draw, selected);
    if SelectedBy(nw, draw, k) {
      SelectionRuleIsUnique(nw, draw, k, selected);
    }
  }

  /**
   With exact arithmetic the scan fires exactly when the draw is at most 1:
   the running sums of normalised weights climb to exactly 1, and the
   inclusive comparison lets a draw of 1 be reached. When it fires, the
   reported probability is the selected weight over the total.
   */
  lemma ScanFiresIffDrawAtMostOne(weights: seq<real>, draw: real)
    requires NonNegative(weights) && !AllZero(weights)
    ensures 0.0 < Sum(weights)
    ensures
      var d := Select(weights, draw).outcome.value;
      var nw := Normalize(weights, Sum(weights));
      && (Covers(nw, draw, d.action - 1) <==> draw <= 1.0)
      && (draw <= 1.0 ==> d.probability == weights[d.action - 1] / Sum(weights))
  {
    var d := Select(weights, draw).outcome.value;
    var nw := Normalize(weights, Sum(weights));
    var n := |weights|;
    NormalizedIsDistribution(weights);
    assert nw[..n] == nw;
    if draw <= 1.0 {
      assert Covers(nw, draw, n - 1);
    }
  }

  /**
   The selection loop as it would run with a strict `>` in place of `>=`,
   the alternative the comment on the comparison rules out: the index it
   breaks at, or `|nw|` when it runs out.
   */
  function StrictScan(nw: seq<real>, draw: real, i: nat, sum: real): (k: nat)
    requires i <= |nw|
    requires sum == PrefixSum(nw, i)
    ensures i <= k <= |nw|
    ensures k < |nw| ==> draw < PrefixSum(nw, k + 1)
    decreases |nw| - i
  {
    if i == |nw| then |nw|
    else
      PrefixSumStep(nw, i);
      if sum + nw[i] > draw then i
      else StrictScan(nw, draw, i + 1, sum + nw[i])
  }

  /**
   The inclusive comparison is needed: for a draw of 1 a strict scan never
   breaks, because no running sum of normalised weights exceeds 1, so it
   would fall back to the last action with probability 0; the inclusive scan
   breaks and reports the selected weight over the total.
   */
  lemma StrictComparisonMissesDrawOfOne(weights: seq<real>)
    requires NonNegative(weights) && !AllZero(weights)
    ensures 0.0 < Sum(weights)
    ensures StrictScan(Normalize(weights, Sum(weights)), 1.0, 0, 0.0) == |weights|
    ensures
      var d := Select(weights, 1.0).outcome.value;
      d.probability == weights[d.action - 1] / Sum(weights)
  {
    NormalizedIsDistribution(weights);
    var nw := Normalize(weights, Sum(weights));
    var k := StrictScan(nw, 1.0, 0, 0.0);
    ScanFiresIffDrawAtMostOne(weights, 1.0);
  }

  /**
   For a draw of at most 1, action `k + 1` is selected exactly when the draw
   lies in the interval of running sums that ends at index `k` (for the first
   action, every draw up to its running sum), and the width of that interval
   is the normalised weight of index `k`. So the reported probability is the
   share of draws in [0, 1] that select the action.
   */
  lemma SelectionInterval(weights: seq<real>, draw: real, k: nat)
    requires NonNegative(weights) && !AllZero(weights)
    requires draw <= 1.0
    requires k < |weights|
    ensures 0.0 < Sum(weights)
    ensures
      var nw := Normalize(weights, Sum(weights));
      && (Select(weights, draw).outcome.value.action == k + 1
          <==> (k == 0 || PrefixSum(nw, k) < draw) && draw <= PrefixSum(nw, k + 1))
      && PrefixSum(nw, k + 1) - PrefixSum(nw, k) == weights[k] / Sum(weights)
  {
    var d := Select(weights, draw).outcome.value;
    var nw := Normalize(weights, Sum(weights));
    NormalizedIsDistribution(weights);
    PrefixSumStep(nw, k);
    ScanFiresIffDrawAtMostOne(weights, draw);
    ActionIffSelectionRule(weights, draw, k);
    if (k == 0 || PrefixSum(nw, k) < draw) && draw <= PrefixSum(nw, k + 1) {
      forall j | 0 <= j < k
        ensures !Covers(nw, draw, j)
      {
        PrefixSumMonotone(nw, j + 1, k);
      }
      assert SelectedBy(nw, draw, k);
    }
    if d.action == k + 1 && k > 0 {
      assert !Covers(nw, draw, k - 1);
    }
  }

  /** A positive draw of at most 1 never selects an action of weight zero. */
  lemma PositiveDrawSelectsPositiveWeight(weights: seq<real>, draw: real)
    requires NonNegative(weights) && !AllZero(weights)
    requires 0.0 < draw <= 1.0
    ensures 0.0 < Select(weights, draw).outcome.value.probability
    ensures 0.0 < weights[Select(weights, draw).outcome.value.action - 1]
  {
    ZeroSumIffAllZero(weights);
    var total := Sum(weights);
    var nw := Normalize(weights, total);
    var d := Select(weights, draw).outcome.value;
    var k := d.action - 1;
    assert 0 <= k < |nw|;
    ScanFiresIffDrawAtMostOne(weights, draw);
    assert Covers(nw, draw, k) && d.probability == nw[k];
    if k > 0 {
      assert !Covers(nw, draw, k - 1);
    }
    FirstReachingEntryIsPositive(nw, draw, k);
    QuotientSign(weights[k], total);
  }

  /**
   A draw of at most 0 is reached by the first running sum, whatever its
   value, so it always selects action 1 and reports its normalised weight,
   even when that weight is zero.
   */
  lemma NonPositiveDrawSelectsFirstAction(weights: seq<real>, draw: real)
    requires NonNegative(weights) && !AllZero(weights)
    requires draw <= 0.0
    ensures 0.0 < Sum(weights)
    ensures Select(weights, draw).outcome.value == Decision(1, weights[0] / Sum(weights))
  {
    ZeroSumIffAllZero(weights);
    var nw := Normalize(weights, Sum(weights));
    NormalizedIsNonNegative(weights, Sum(weights));
    PrefixSumStep(nw, 0);
    assert nw[..0] == [];
    assert Covers(nw, draw, 0);
    assert SelectedBy(nw, draw, 0);
    ActionIffSelectionRule(weights, draw, 0);
    var d := Select(weights, draw).outcome.value;
    assert d.action == 1;
    assert d.probability == nw[0];
  }

  /**
   An instance of `NonPositiveDrawSelectsFirstAction`: a draw of exactly 0
   selects a leading action of weight zero and reports probability 0; the
   later entry keeps its raw value.
   */
  lemma ZeroDrawSelectsLeadingZeroWeight()
    ensures MapContext([0.0, 1.0], IntMaxValue, 0.0)
      == Call(Success(Decision(1, 0.0)), [0.0, 1.0], 1)
  {
    var w := [0.0, 1.0];
    assert w[..1] == [0.0] && w[..1][..0] == [];
    assert w[..|w| - 1] == [0.0];
    assert Sum(w) == 1.0;
    NonPositiveDrawSelectsFirstAction(w, 0.0);
  }
}
