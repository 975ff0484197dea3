/** One request that falls back from provider to provider, while their states may change. */
module RpcRequests {
  import opened Wrappers

  datatype ErrorType = RETRIABLE | RATE_LIMIT | NON_RETRIABLE | CHAIN_ERROR

  datatype Answer = Answered(value: nat) | Rejected(error: ErrorType)

  datatype RequestError = Thrown(error: ErrorType) | AllFailed(errors: seq<ErrorType>)

  predicate PassedOn(answer: Answer) {
    answer.Rejected? && (answer.error.RETRIABLE? || answer.error.RATE_LIMIT?)
  }

  /**
   * What a request may do: a degraded provider is skipped unless it is the last. The providers keep
   * the order they had when the request began; degraded[i] is provider i's state when its turn
   * comes, and answers[i] what it would answer then.
   */
  ghost predicate FollowsOrder(degraded: seq<bool>, answers: seq<Answer>, tried: seq<nat>)
    requires |degraded| == |answers|
  {
    && (forall k :: 0 <= k < |tried| ==> tried[k] < |answers| && (degraded[tried[k]] ==> tried[k] == |answers| - 1))
    && (forall j, k :: 0 <= j < k < |tried| ==> tried[j] < tried[k])
    && (forall k :: 0 <= k < |tried| - 1 ==> PassedOn(answers[tried[k]]))
  }

  /** Every provider before position n is tried or skipped. */
  ghost predicate LeavesNoneOut(degraded: seq<bool>, tried: seq<nat>, n: nat)
    requires n <= |degraded|
  {
    forall i :: 0 <= i < n ==> i in tried || (degraded[i] && i < |degraded| - 1)
  }

  lemma NothingTried(degraded: seq<bool>, answers: seq<Answer>)
    requires |degraded| == |answers|
    ensures FollowsOrder(degraded, answers, []) && LeavesNoneOut(degraded, [], 0)
  {
  }

  lemma OneMoreSkipped(degraded: seq<bool>, tried: seq<nat>, i: nat)
    requires i < |degraded| - 1 && degraded[i] && LeavesNoneOut(degraded, tried, i)
    ensures LeavesNoneOut(degraded, tried, i + 1)
  {
  }

  lemma OneMoreTried(degraded: seq<bool>, answers: seq<Answer>, tried: seq<nat>, i: nat)
    requires |degraded| == |answers| && i < |answers| && (degraded[i] ==> i == |answers| - 1)
    requires FollowsOrder(degraded, answers, tried) && LeavesNoneOut(degraded, tried, i)
    requires forall k :: 0 <= k < |tried| ==> tried[k] < i && PassedOn(answers[tried[k]])
    ensures FollowsOrder(degraded, answers, tried + [i])
    ensures LeavesNoneOut(degraded, tried + [i], i) && LeavesNoneOut(degraded, tried + [i], i + 1)
  {
    assert forall j :: j in tried ==> j in tried + [i];
    assert i in tried + [i];
  }

  method ExecuteRequest(degraded: seq<bool>, answers: seq<Answer>)
    returns (result: Result<nat, RequestError>, tried: seq<nat>)
    requires |degraded| == |answers|
    ensures FollowsOrder(degraded, answers, tried)
    ensures answers != [] ==> tried != []
    ensures match result
            case Ok(value) =>
              tried != [] && answers[tried[|tried| - 1]] == Answered(value)
              && LeavesNoneOut(degraded, tried, tried[|tried| - 1])
            case Err(Thrown(error)) =>
              tried != [] && answers[tried[|tried| - 1]] == Rejected(error) && (error == NON_RETRIABLE || error == CHAIN_ERROR)
              && LeavesNoneOut(degraded, tried, tried[|tried| - 1])
            case Err(AllFailed(errors)) =>
              && |errors| == |tried| && (forall error :: error in errors ==> error == RETRIABLE || error == RATE_LIMIT)
              && (forall k :: 0 <= k < |tried| ==> answers[tried[k]] == Rejected(errors[k]))
              && LeavesNoneOut(degraded, tried, |answers|)
  {
    hide FollowsOrder, LeavesNoneOut;
    var errors: seq<ErrorType> := [];
    tried := [];
    NothingTried(degraded, answers);
    for i := 0 to |answers|
      invariant forall k :: 0 <= k < |tried| ==> tried[k] < i
      invariant FollowsOrder(degraded, answers, tried)
      invariant |errors| == |tried|
      invariant forall k :: 0 <= k < |tried| ==> answers[tried[k]] == Rejected(errors[k]) && PassedOn(answers[tried[k]])
      invariant LeavesNoneOut(degraded, tried, i)
      invariant i == |answers| && answers != [] ==> tried != []
    {
      if degraded[i] && i < |answers| - 1 {
        OneMoreSkipped(degraded, tried, i);
        continue;
      }
      OneMoreTried(degraded, answers, tried, i);
      tried := tried + [i];
      match answers[i]
      case Answered(value) =>
        return Ok(value), tried;
      case Rejected(error) =>
        if !PassedOn(answers[i]) {
          return Err(Thrown(error)), tried;
        }
        errors := errors + [error];
    }
    return Err(AllFailed(errors)), tried;
  }

  /** The policy leaves no choice: two lists of tried providers that follow it agree as far as the shorter goes. */
  lemma {:induction false} OrderIsForced(degraded: seq<bool>, answers: seq<Answer>, a: seq<nat>, b: seq<nat>, k: nat)
    requires |degraded| == |answers| && k < |a| && k < |b|
    requires FollowsOrder(degraded, answers, a) && FollowsOrder(degraded, answers, b)
    requires LeavesNoneOut(degraded, a, a[|a| - 1]) && LeavesNoneOut(degraded, b, b[|b| - 1])
    ensures a[k] == b[k]
  {
    if k > 0 {
      OrderIsForced(degraded, answers, a, b, k - 1);
    }
    NextIsForced(degraded, answers, a, b, k);
    NextIsForced(degraded, answers, b, a, k);
  }

  lemma NextIsForced(degraded: seq<bool>, answers: seq<Answer>, a: seq<nat>, b: seq<nat>, k: nat)
    requires |degraded| == |answers| && k < |a| && k < |b| && (k > 0 ==> a[k - 1] == b[k - 1])
    requires FollowsOrder(degraded, answers, a) && FollowsOrder(degraded, answers, b)
    requires LeavesNoneOut(degraded, a, a[|a| - 1])
    ensures a[k] <= b[k]
  {
  }
}
