/** The counters of one RPC provider, and what they say about the results since the last reset. */
module ProviderMetrics {
  datatype Outcome = Succeeded(time: real) | Failed

  const MAX_SAMPLES := 100

  // ----- The results since the last reset, and their statistics -----

  function SuccessTimes(results: seq<Outcome>): seq<real> {
    if results == [] then []
    else
      var last := results[|results| - 1];
      SuccessTimes(results[..|results| - 1]) + if last.Succeeded? then [last.time] else []
  }

  /** How many results at the end are failures. */
  function TrailingFailures(results: seq<Outcome>): nat {
    if results == [] || results[|results| - 1].Succeeded? then 0 else 1 + TrailingFailures(results[..|results| - 1])
  }

  function Last(times: seq<real>, count: nat): seq<real> {
    if |times| <= count then times else times[|times| - count..]
  }

  function Sum(times: seq<real>): real {
    if times == [] then 0.0 else Sum(times[..|times| - 1]) + times[|times| - 1]
  }

  function Mean(times: seq<real>): real {
    if times == [] then 0.0 else Sum(times) / (|times| as real)
  }

  function SuccessRate(results: seq<Outcome>): real {
    if results == [] then 0.0 else (|SuccessTimes(results)| as real) / (|results| as real)
  }

  lemma {:induction false} SuccessTimesAreOfSuccesses(results: seq<Outcome>, time: real)
    ensures multiset(SuccessTimes(results))[time] == multiset(results)[Succeeded(time)]
  {
    if results != [] {
      var n := |results| - 1;
      SuccessTimesAreOfSuccesses(results[..n], time);
      assert results == results[..n] + [results[n]];
    }
  }

  /** The window holds the last 100 times of successes, or all of them, and the average is their mean. */
  lemma {:induction false} WindowIsLast(results: seq<Outcome>, older: seq<real>, recent: seq<real>)
    requires SuccessTimes(results) == older + recent && |recent| <= 100 && (older != [] ==> |recent| == 100)
    ensures Last(SuccessTimes(results), MAX_SAMPLES) == recent
    ensures Mean(recent) * (|recent| as real) == Sum(recent)
  {
    hide SuccessTimes;
  }

  lemma {:induction false} SuccessesAtMostTotal(results: seq<Outcome>)
    ensures |SuccessTimes(results)| + TrailingFailures(results) <= |results|
  {
    if results != [] {
      SuccessesAtMostTotal(results[..|results| - 1]);
    }
  }

  /** A success rate is a fraction; it is 1 exactly if there are results and none of them failed. */
  lemma SuccessRateIsFraction(results: seq<Outcome>)
    ensures 0.0 <= SuccessRate(results) <= 1.0
    ensures SuccessRate(results) == 1.0 <==> results != [] && |SuccessTimes(results)| == |results|
  {
    SuccessesAtMostTotal(results);
    if results != [] {
      Quotient(|SuccessTimes(results)|, |results|);
    }
  }

  lemma Quotient(a: nat, b: nat)
    requires a <= b && b > 0
    ensures 0.0 <= (a as real) / (b as real) <= 1.0
    ensures (a as real) / (b as real) == 1.0 <==> a == b
  {
    var q := (a as real) / (b as real);
    assert q * (b as real) == a as real;
  }

  lemma LastAfterPush(times: seq<real>, time: real, count: nat)
    requires count > 0
    ensures var pushed := Last(times, count) + [time];
            Last(times + [time], count) == if |pushed| > count then pushed[1..] else pushed
  {
  }

  class Metrics {
    var consecutiveFailures: nat
    var totalRequests: nat
    var successfulRequests: nat
    var averageResponseTime: real
    var responseTimes: seq<real>
    ghost var results: seq<Outcome>

    /** The counters are the statistics of the results since the last reset. */
    ghost predicate Valid()
      reads this
    {
      && consecutiveFailures == TrailingFailures(results)
      && totalRequests == |results|
      && successfulRequests == |SuccessTimes(results)|
      && responseTimes == Last(SuccessTimes(results), MAX_SAMPLES)
      && averageResponseTime == Mean(responseTimes)
    }

    constructor ()
      ensures Valid() && results == []
    {
      consecutiveFailures, totalRequests, successfulRequests := 0, 0, 0;
      averageResponseTime, responseTimes := 0.0, [];
      results := [];
    }

    function GetSuccessRate(): (rate: real)
      requires Valid()
      reads this
      ensures rate == SuccessRate(results)
    {
      if totalRequests > 0 then (successfulRequests as real) / (totalRequests as real) else 0.0
    }

    method RecordSuccess(responseTime: real)
      requires Valid()
      modifies this
      ensures Valid() && results == old(results) + [Succeeded(responseTime)]
    {
      LastAfterPush(SuccessTimes(results), responseTime, MAX_SAMPLES);
      totalRequests := totalRequests + 1;
      successfulRequests := successfulRequests + 1;
      consecutiveFailures := 0;
      responseTimes := responseTimes + [responseTime];
      if |responseTimes| > MAX_SAMPLES {
        responseTimes := responseTimes[1..];
      }
      var sum := AddUp(responseTimes);
      averageResponseTime := sum / (|responseTimes| as real);
      results := results + [Succeeded(responseTime)];
      assert results[..|results| - 1] == old(results);
    }

    method RecordFailure()
      requires Valid()
      modifies this
      ensures Valid() && results == old(results) + [Failed]
    {
      totalRequests := totalRequests + 1;
      consecutiveFailures := consecutiveFailures + 1;
      results := results + [Failed];
      assert results[..|results| - 1] == old(results);
    }

    method Reset()
      modifies this
      ensures Valid() && results == []
    {
      consecutiveFailures, totalRequests, successfulRequests := 0, 0, 0;
      averageResponseTime, responseTimes := 0.0, [];
      results := [];
    }
  }

  /** Array.reduce with addition. */
  method AddUp(times: seq<real>) returns (sum: real)
    ensures sum == Sum(times)
  {
    sum := 0.0;
    for i := 0 to |times|
      invariant sum == Sum(times[..i])
    {
      assert times[..i + 1][..i] == times[..i];
      sum := sum + times[i];
    }
    assert times[..|times|] == times;
  }
}
