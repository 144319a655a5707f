/**
 The sample-without-replacement explorer, a wrapper that owns a generic
 explorer. Its `MapContext` first runs the inner explorer's `MapContext` on
 the caller's array and then hands that same, by now partly normalised, array
 to `MultiActionHelper.SampleWithoutReplacement`, whose code is not part of
 this model. The model therefore stops at that hand-over: it says which errors
 the wrapper raises and exactly what the helper is given.
 */
module SampleWithoutReplacement {
  import opened WeightVector
  import Generic = GenericExplorer

  /** The wrapper's explore flag and the generic explorer it owns. */
  datatype Explorer = Explorer(explore: bool, explorer: Generic.Explorer)

  /**
   The call made to `MultiActionHelper.SampleWithoutReplacement`: the array
   it receives, the action count it receives (the array's length) and how
   many draws the random generator has already given out in this call.
   */
  datatype HelperCall = HelperCall(weights: seq<real>, numActions: int, drawsBefore: nat)

  /** Both explorers agree on whether to explore. */
  predicate InSync(e: Explorer)
  {
    e.explore == e.explorer.explore
  }

  /** `EnableExplore`: sets the wrapper's own flag and forwards it to the inner explorer. */
  function EnableExplore(e: Explorer, explore: bool): (r: Explorer)
    ensures InSync(r)
    ensures r.explore == explore
  {
    Explorer(explore, Generic.Explorer(explore))
  }

  /** Only the last `EnableExplore` matters: it overrides whatever was set before. */
  lemma EnableExploreLastCallWins(e: Explorer, first: bool, second: bool)
    ensures EnableExplore(EnableExplore(e, first), second) == EnableExplore(e, second)
  {
  }

  /**
   `MapContext` up to the hand-over. It fails exactly when the inner
   explorer's validation fails, with the same error and with the caller's
   array untouched; otherwise the helper receives the array as the inner
   call left it (normalised up to the inner selection, raw after it), the
   array's length rather than the declared count, and a generator that has
   already given out one draw.
   */
  function MapContext(weights: seq<real>, numActions: Generic.int32, draw: real): (r: Generic.Result<HelperCall>)
    ensures r.Failure? <==> !Generic.Valid(weights, numActions)
    ensures r.Failure? ==> Generic.MapContext(weights, numActions, draw).outcome == Generic.Failure(r.error)
    ensures r.Failure? ==> Generic.MapContext(weights, numActions, draw).weights == weights
    ensures r.Success? ==>
      var total := Sum(weights);
      var k := Generic.MapContext(weights, numActions, draw).outcome.value.action - 1;
      && 0.0 < total
      && r.value.numActions == |r.value.weights| == |weights|
      && r.value.drawsBefore == 1
      && 0 <= k < |weights|
      && (forall j :: 0 <= j <= k ==> r.value.weights[j] == weights[j] / total)
      && (forall j :: k < j < |weights| ==> r.value.weights[j] == weights[j])
  {
    var inner := Generic.MapContext(weights, numActions, draw);
    match inner.outcome
    case Failure(e) => Generic.Failure(e)
    case Success(_) => Generic.Success(HelperCall(inner.weights, |inner.weights|, inner.draws))
  }

  /**
   The error a wrapper call raises depends only on the weights and the
   declared count, in the same order of checks as the generic explorer: a
   length mismatch first, then a negative weight, then an all-zero vector.
   */
  lemma ErrorsAreTheGenericExplorers(weights: seq<real>, numActions: Generic.int32, draw: real)
    ensures MapContext(weights, numActions, draw) == Generic.Failure(Generic.LengthMismatch)
        <==> !Generic.LengthAccepted(weights, numActions)
    ensures MapContext(weights, numActions, draw) == Generic.Failure(Generic.NegativeScore)
        <==> Generic.LengthAccepted(weights, numActions) && !NonNegative(weights)
    ensures MapContext(weights, numActions, draw) == Generic.Failure(Generic.ZeroTotal)
        <==> Generic.LengthAccepted(weights, numActions) && NonNegative(weights) && AllZero(weights)
  {
  }
}
