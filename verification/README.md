# Generic explorer: weighted action sampling

This project models the weighted action sampler of the multi-world-testing
client library. It covers `GenericExplorer.MapContext` and the visible part of
its wrapper `GenericExplorerSampleWithoutReplacement`, both in
`client/explore/GenericExplorer.cs`.

`GenericExplorer.MapContext(random, weights, numActions)` works in three steps:

1. It validates the scorer's weight vector. The length must equal the declared
   action count, unless the count is the `int.MaxValue` sentinel. No weight
   may be negative. The weights must not add up to zero.
2. It takes one uniform draw and divides the weights by their total, in the
   caller's array, as it scans them.
3. It stops at the first index whose running sum of normalised weights
   reaches the draw (`>=`). It returns that index 1-based, with the
   normalised weight as the recorded probability. If the scan runs out, the
   action is the last one and the probability stays at 0.

The model is functional:

- `float` becomes `real`.
- The draw is a parameter.
- A call returns a `Call`: the outcome (an `ArgumentError` or a `Decision`),
  the contents of the caller's array after the call, and the number of draws
  taken.

Two quirks of the C# code appear in the contracts:

- The in-place normalisation stops at the selected index, so later entries
  keep their raw values.
- The fallback path reports probability 0.

With exact arithmetic the fallback path is taken exactly when the draw is
above 1. `ScanFiresIffDrawAtMostOne` proves this.

`SelectionInterval` states the sampler's statistical contract. For a draw in
[0, 1], action `k + 1` is chosen exactly when the draw falls into an interval
whose width is that action's normalised weight. That width is the probability
the call reports.

`NonPositiveDrawSelectsFirstAction` covers one edge case. A draw of at most
0 always selects action 1 and reports its normalised weight, even when that
weight is zero. `ZeroDrawSelectsLeadingZeroWeight` is a concrete instance.
`PositiveDrawSelectsPositiveWeight` shows that any draw in (0, 1] selects an
action with positive weight and reports a positive probability.

The wrapper's `MapContext` first runs the inner explorer's `MapContext`. Then
it hands the same array, now partly normalised, to
`MultiActionHelper.SampleWithoutReplacement`. That helper is not part of this
model, so the model stops at the hand-over. It states:

- which errors the wrapper raises;
- what the helper receives: the array, the array's length and a generator
  that has already given out one draw.

Modules:

- `WeightVector` (`weight_vector.dfy`): sums, running sums and normalisation
  of weight vectors, with their lemmas.
- `GenericExplorer` (`generic_explorer.dfy`): the explorer itself. This
  includes `MapContextLoop`, the C# method's two loops written as loops, which is
  proved to compute exactly `MapContext`.
- `SampleWithoutReplacement` (`sample_without_replacement.dfy`): the wrapper.

## Model

| member | source | states |
|---|---|---|
| WeightVector.ZeroSumIffAllZero | client/explore/GenericExplorer.cs:40-50 | for non-negative weights the total is never negative, and it is zero exactly when every weight is zero, which is what "at least one score must be positive" means |
| WeightVector.NormalizedIsDistribution | client/explore/GenericExplorer.cs:59-60 | dividing non-negative weights with a non-zero total by that total gives non-negative entries whose running sums never exceed 1 and end at exactly 1 |
| GenericExplorer.Validate | client/explore/GenericExplorer.cs:34-50 | a length mismatch is reported unless the count is the `int.MaxValue` sentinel; otherwise a negative weight is reported; otherwise an all-zero vector is reported; success happens exactly for valid weights and carries the total, which is the sum of the weights and positive, over a non-empty vector |
| GenericExplorer.Scan | client/explore/GenericExplorer.cs:54-69 | the selection loop stops at an index whose running sum reaches the draw, and no earlier index's running sum does; it returns the length when the loop runs out |
| GenericExplorer.Select | client/explore/GenericExplorer.cs:52-77 | after validation: one draw is taken; the 1-based action lies in [1, length] and follows the least-index-or-last rule; the probability is the selected normalised weight, or 0 when nothing reached the draw, and lies in [0, 1]; the array holds weight/total up to the selected index and the raw weights after it |
| GenericExplorer.MapContext | client/explore/GenericExplorer.cs:32-78 | each of the three argument errors happens exactly under its condition, checked in the order the C# `GenericExplorer.MapContext` checks them; a failed call takes no draw and leaves the array unchanged; a call succeeds exactly for valid weights and then behaves as `Select` |
| GenericExplorer.ValidateLoop | client/explore/GenericExplorer.cs:34-50 | the length check and the accumulating scan that rejects negative weights, written as a loop, give exactly the verdict and total of `Validate` |
| GenericExplorer.SelectLoop | client/explore/GenericExplorer.cs:54-77 | the selection loop, normalising a copy of the array in place and breaking at the first `sum >= draw`, gives exactly the decision and array contents of `Select` |
| GenericExplorer.MapContextLoop | client/explore/GenericExplorer.cs:32-78 | the two loops in sequence compute exactly `MapContext` |
| GenericExplorer.SelectionRuleIsUnique | client/explore/GenericExplorer.cs:56-69 | at most one index satisfies the least-index-or-last rule |
| GenericExplorer.ActionIffSelectionRule | client/explore/GenericExplorer.cs:56-74 | the returned action is `k + 1` exactly when `k` satisfies the selection rule on the normalised weights |
| GenericExplorer.ScanFiresIffDrawAtMostOne | client/explore/GenericExplorer.cs:57-68 | with exact arithmetic the selected index's running sum reaches the draw exactly when the draw is at most 1; for such draws the reported probability is the selected weight over the total |
| GenericExplorer.StrictComparisonMissesDrawOfOne | client/explore/GenericExplorer.cs:57-68 | for a draw of 1, a scan comparing with a strict `>` never breaks, so it would fall back to the last action with probability 0; the inclusive `>=` scan breaks and reports the selected weight over the total |
| GenericExplorer.SelectionInterval | client/explore/GenericExplorer.cs:54-69 | for draws of at most 1, action `k + 1` is chosen exactly when the draw lies above the running sum before `k` (or `k` is the first index) and at or below the running sum through `k`; that interval's width is the normalised weight of `k` |
| GenericExplorer.PositiveDrawSelectsPositiveWeight | client/explore/GenericExplorer.cs:57-68 | a draw in (0, 1] always selects an action with a positive weight and reports a positive probability |
| GenericExplorer.NonPositiveDrawSelectsFirstAction | client/explore/GenericExplorer.cs:54-67 | after validation, any draw of at most 0 selects action 1 with probability equal to its weight over the total, even when that weight is zero |
| GenericExplorer.ZeroDrawSelectsLeadingZeroWeight | client/explore/GenericExplorer.cs:52-77 | an instance of the previous row: weights [0, 1] with a draw of 0 select action 1 with probability 0 and leave the array [0, 1] |
| SampleWithoutReplacement.EnableExplore | client/explore/GenericExplorer.cs:104-108 | sets the wrapper's flag and the owned generic explorer's flag to the same given value |
| SampleWithoutReplacement.EnableExploreLastCallWins | client/explore/GenericExplorer.cs:104-108 | a second `EnableExplore` overrides the first on both explorers |
| SampleWithoutReplacement.MapContext | client/explore/GenericExplorer.cs:110-115 | fails exactly when the generic explorer rejects the input, with the same error and the array unchanged; otherwise the helper receives the array as the inner call left it (normalised through the inner selection, raw after it), the array's length as the action count, and a generator that has given out one draw |
| SampleWithoutReplacement.ErrorsAreTheGenericExplorers | client/explore/GenericExplorer.cs:110-112 | the wrapper raises a length mismatch, a negative-score or a zero-total error under exactly the generic explorer's conditions and in its order |

## Left out

- IEEE `float` rounding in the total, the running sum and the division. All
  values are exact `real`s. In the C# code the fallback branch (action = last,
  probability 0) exists because rounding can leave the final running sum just
  below a draw near 1. It is also reached when finite weights have a float
  total that overflows to +infinity, for example two weights of 3e38. Every
  normalised weight is then 0, so any positive draw falls back to the last
  action with probability 0. The model's exact total cannot show this. With
  exact values the fallback is reached only by draws above 1. NaN and
  infinite weights do not exist in the model.
- `PRG.UniformUnitInterval` is randomness. The draw is a parameter, and the
  model counts the draws a call consumes. The lemmas bound the draw to at most
  1 where they need it.
- `MultiActionHelper.SampleWithoutReplacement` is not part of this model. The
  ranking it returns, its joint probability, the further draws it takes and
  any changes it makes to the array are not modelled. The wrapper's model ends
  at the arguments it passes.
- `BaseExplorer` is not part of this model. Its `EnableExplore` is taken to
  set the object's own explore flag. `GenericExplorer.MapContext` never reads
  that flag.
- `ExplorerDecision.Create` is not part of this model. Its third argument is
  the constant `true` in both `MapContext`s, and its meaning is not visible,
  so `Decision` keeps only the action and the probability.
- The `[JsonIgnore]` serialisation attribute on `GenericExplorerState` is left
  out. It carries no behaviour.
- The constructors are left out. `GenericExplorer`'s constructor is empty.
  The wrapper's constructor creates the owned `GenericExplorer`, which the
  `explorer` field of `SampleWithoutReplacement.Explorer` stands for. The
  starting values of both explore flags belong to `BaseExplorer`, which is
  not part of this model. So `InSync` is known to hold only after the first
  `EnableExplore`, not at construction.
- A null `weights` array (a `NullReferenceException` in the C# code) cannot
  occur: the model's array is a sequence.
- `client/ClientDecisionServiceTest/UploaderTest.cs` is left out. It tests the
  event uploader against a network join server and blob storage, with
  background flushing and concurrency, which is outside the sampler.
