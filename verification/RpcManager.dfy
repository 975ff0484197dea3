/**
 * The RPC providers of one chain: health checks, promotion of a better provider, replicas in
 * the worker threads, and requests that fall back from one provider to the next.
 */
module RpcManagers {
  import opened ProviderMetrics
  import opened UserOps
  import opened Wrappers

  const FAILURE_THRESHOLD := 3

  const PROMOTION_THRESHOLD := 0.95

  const MINIMUM_REQUESTS := 10

  datatype State = Active | Degraded

  /** A provider with its results since its metrics were last reset. */
  datatype Provider = Provider(url: string, priority: nat, state: State, results: seq<Outcome>)

  /** An entry of a sync message: a field that is not given stays as it is. */
  datatype Update = Update(url: string, priority: Option<nat>, state: Option<State>)

  /** The providers as prepareRpcChainConfig sets them up. */
  function Prepared(rpcs: seq<string>): (providers: seq<Provider>)
    ensures |providers| == |rpcs|
  {
    seq(|rpcs|, i requires 0 <= i < |rpcs| => Provider(rpcs[i], i, Active, []))
  }

  predicate DistinctUrls(providers: seq<Provider>) {
    forall i, j :: 0 <= i < j < |providers| ==> providers[i].url != providers[j].url
  }

  /** Priorities are the positions: 0 to n - 1, each once, in order. */
  predicate InOrder(providers: seq<Provider>) {
    forall i :: 0 <= i < |providers| ==> providers[i].priority == i
  }

  // ----- Sorting -----

  /** Stable insertion by priority. */
  function Insert(p: Provider, sorted: seq<Provider>): (result: seq<Provider>)
    ensures |result| == |sorted| + 1 && multiset(result) == multiset(sorted) + multiset{p}
  {
    if sorted == [] then [p]
    else
      var last := sorted[|sorted| - 1];
      var front := sorted[..|sorted| - 1];
      assert sorted == front + [last];
      if last.priority <= p.priority then sorted + [p] else Insert(p, front) + [last]
  }

  function Sorted(providers: seq<Provider>): (result: seq<Provider>)
    ensures |result| == |providers| && multiset(result) == multiset(providers)
  {
    if providers == [] then []
    else
      assert providers == providers[..|providers| - 1] + [providers[|providers| - 1]];
      Insert(providers[|providers| - 1], Sorted(providers[..|providers| - 1]))
  }

  ghost predicate NonDecreasing(providers: seq<Provider>) {
    forall i, j :: 0 <= i < j < |providers| ==> providers[i].priority <= providers[j].priority
  }

  lemma {:induction false} InsertedIsOldOrNew(p: Provider, sorted: seq<Provider>, q: Provider)
    requires q in Insert(p, sorted)
    ensures q == p || q in sorted
  {
    hide Insert;
    assert q in multiset(Insert(p, sorted));
  }

  lemma {:induction false} NonDecreasingPlus(front: seq<Provider>, last: Provider)
    requires NonDecreasing(front) && forall p :: p in front ==> p.priority <= last.priority
    ensures NonDecreasing(front + [last])
  {
  }

  lemma {:induction false} InsertKeepsOrder(p: Provider, sorted: seq<Provider>)
    requires NonDecreasing(sorted)
    ensures NonDecreasing(Insert(p, sorted))
  {
    if sorted == [] {
    } else {
      var front, last := sorted[..|sorted| - 1], sorted[|sorted| - 1];
      if last.priority <= p.priority {
        NonDecreasingPlus(sorted, p);
      } else {
        InsertKeepsOrder(p, front);
        forall q | q in Insert(p, front) ensures q.priority <= last.priority {
          InsertedIsOldOrNew(p, front, q);
        }
        NonDecreasingPlus(Insert(p, front), last);
      }
    }
  }

  lemma {:induction false} SortedIsNonDecreasing(providers: seq<Provider>)
    ensures NonDecreasing(Sorted(providers))
  {
    if providers != [] {
      SortedIsNonDecreasing(providers[..|providers| - 1]);
      InsertKeepsOrder(providers[|providers| - 1], Sorted(providers[..|providers| - 1]));
    }
  }

  ghost predicate Increasing(providers: seq<Provider>) {
    forall i, j :: 0 <= i < j < |providers| ==> providers[i].priority < providers[j].priority
  }

  lemma LastIsSame(a: seq<Provider>, b: seq<Provider>)
    requires multiset(a) == multiset(b) && NonDecreasing(a) && Increasing(b) && a != [] && b != []
    ensures a[|a| - 1] == b[|b| - 1]
  {
    var x, y := a[|a| - 1], b[|b| - 1];
    assert x in multiset(b) && y in multiset(a);
    var i :| 0 <= i < |a| && a[i] == y;
    var j :| 0 <= j < |b| && b[j] == x;
    assert y.priority <= x.priority;
  }

  lemma SameFront(a: seq<Provider>, b: seq<Provider>, last: Provider)
    requires multiset(a + [last]) == multiset(b + [last])
    ensures multiset(a) == multiset(b)
  {
    assert multiset(a) == multiset(a + [last]) - multiset{last};
    assert multiset(b) == multiset(b + [last]) - multiset{last};
  }

  /** Two lists of the same providers, one sorted and one in strict order, are equal. */
  lemma {:induction false} OrderIsUnique(a: seq<Provider>, b: seq<Provider>)
    requires |a| == |b| && multiset(a) == multiset(b) && NonDecreasing(a) && Increasing(b)
    ensures a == b
  {
    if a != [] {
      var n := |a| - 1;
      LastIsSame(a, b);
      assert a == a[..n] + [a[n]];
      assert b == b[..n] + [a[n]];
      SameFront(a[..n], b[..n], a[n]);
      OrderIsUnique(a[..n], b[..n]);
    }
  }

  /** Sorting restores any list that is in order. */
  lemma {:induction false} SortRestores(shuffled: seq<Provider>, ordered: seq<Provider>)
    requires |shuffled| == |ordered| && multiset(shuffled) == multiset(ordered) && InOrder(ordered)
    ensures Sorted(shuffled) == ordered
  {
    SortedIsNonDecreasing(shuffled);
    OrderIsUnique(Sorted(shuffled), ordered);
  }

  // ----- Health checks and promotion -----

  /** A success brings a provider back only if its metrics count failures before it. */
  function AfterSuccess(p: Provider, time: real): Provider {
    p.(state := if TrailingFailures(p.results) > 0 then Active else p.state, results := p.results + [Succeeded(time)])
  }

  function AfterFailure(p: Provider): Provider {
    var results := p.results + [Failed];
    p.(state := if TrailingFailures(results) >= FAILURE_THRESHOLD then Degraded else p.state, results := results)
  }

  function AfterCheck(p: Provider, result: Outcome): Provider {
    if result.Succeeded? then AfterSuccess(p, result.time) else AfterFailure(p)
  }

  /** A sync message is sent when a state is assigned, even to the same value. */
  function CheckMessage(p: Provider, result: Outcome): seq<Update> {
    var p' := AfterCheck(p, result);
    if result.Succeeded? && TrailingFailures(p.results) == 0 then []
    else if result.Failed? && TrailingFailures(p'.results) < FAILURE_THRESHOLD then []
    else [Update(p.url, None, Some(p'.state))]
  }

  predicate Eligible(p: Provider) {
    p.priority != 0 && |p.results| >= MINIMUM_REQUESTS && SuccessRate(p.results) >= PROMOTION_THRESHOLD
  }

  /** Provider i is the first of the best eligible ones. */
  ghost predicate IsBest(providers: seq<Provider>, i: nat) {
    && i < |providers| && Eligible(providers[i])
    && (forall j :: 0 <= j < |providers| && Eligible(providers[j]) ==>
          SuccessRate(providers[j].results) <= SuccessRate(providers[i].results))
    && (forall j :: 0 <= j < i && Eligible(providers[j]) ==>
          SuccessRate(providers[j].results) < SuccessRate(providers[i].results))
  }

  /** The best provider takes over if its rate beats the primary's, or the primary keeps failing. */
  predicate Beats(best: Provider, primary: Provider) {
    || SuccessRate(best.results) > SuccessRate(primary.results)
    || TrailingFailures(primary.results) >= FAILURE_THRESHOLD
  }

  /** The two providers swap places, and both start with fresh metrics. */
  function Promoted(providers: seq<Provider>, i: nat): seq<Provider>
    requires 0 < i < |providers|
  {
    providers[0 := providers[i].(priority := 0, results := [])][i := providers[0].(priority := i, results := [])]
  }

  function Snapshot(providers: seq<Provider>): (updates: seq<Update>)
    ensures |updates| == |providers|
  {
    seq(|providers|, i requires 0 <= i < |providers| =>
      Update(providers[i].url, Some(providers[i].priority), Some(providers[i].state)))
  }

  /** The swap made in place, before the list is sorted again. */
  function Swapped(providers: seq<Provider>, i: nat): seq<Provider>
    requires 0 < i < |providers|
  {
    providers[0 := providers[0].(priority := providers[i].priority, results := [])]
             [i := providers[i].(priority := providers[0].priority, results := [])]
  }

  lemma {:induction false} SwapAndSort(providers: seq<Provider>, i: nat)
    requires 0 < i < |providers| && InOrder(providers)
    ensures InOrder(Promoted(providers, i))
    ensures Sorted(Swapped(providers, i)) == Promoted(providers, i)
  {
    var p, q := providers[0].(priority := i, results := []), providers[i].(priority := 0, results := []);
    assert Swapped(providers, i) == providers[0 := p][i := q];
    assert multiset(providers[0 := p][i := q]) == multiset(providers[0 := q][i := p]);
    SortRestores(Swapped(providers, i), Promoted(providers, i));
  }

  function Rate(p: Provider): real {
    SuccessRate(p.results)
  }

  /** The scan over the first n providers: a later one must be strictly better. */
  function Best(providers: seq<Provider>, n: nat): (best: Option<nat>)
    requires n <= |providers|
    ensures best.Some? ==> best.value < n
  {
    if n == 0 then None
    else
      var best := Best(providers, n - 1);
      var bestRate := if best.Some? then Rate(providers[best.value]) else 0.0;
      if Eligible(providers[n - 1]) && Rate(providers[n - 1]) > bestRate then Some(n - 1) else best
  }

  lemma {:induction false} BestOfPrefix(providers: seq<Provider>, n: nat)
    requires n <= |providers|
    ensures Best(providers, n).Some? ==> Best(providers, n).value < n && IsBest(providers[..n], Best(providers, n).value)
    ensures Best(providers, n).None? ==> forall j :: 0 <= j < n ==> !Eligible(providers[j])
  {
    hide SuccessRate;
    if n != 0 {
      BestOfPrefix(providers, n - 1);
      assert forall j :: 0 <= j < n - 1 ==> providers[..n][j] == providers[..n - 1][j];
    }
  }

  /** The scan finds a best eligible provider, if there is an eligible one at all. */
  lemma {:induction false} BestIsBest(providers: seq<Provider>)
    ensures match Best(providers, |providers|)
            case Some(i) => IsBest(providers, i)
            case None => forall p :: p in providers ==> !Eligible(p)
  {
    BestOfPrefix(providers, |providers|);
    assert providers[..|providers|] == providers;
  }

  /** What one run of the promotion check does; without a primary it throws and does nothing. */
  function Decision(providers: seq<Provider>): (decision: Option<nat>)
    ensures decision.Some? ==> decision.value < |providers|
  {
    var best := Best(providers, |providers|);
    if providers != [] && best.Some? && Beats(providers[best.value], providers[0]) then best else None
  }

  // ----- When a provider is promoted -----

  function Successes(p: Provider): nat {
    |SuccessTimes(p.results)|
  }

  /** A fallback with enough results, of which at least 95 in 100 are successes. */
  predicate IsCandidate(p: Provider) {
    p.priority != 0 && |p.results| >= 10 && 100 * Successes(p) >= 95 * |p.results|
  }

  /** A higher share of p's results than of q's are successes; without results the share is 0. */
  predicate HasHigherRate(p: Provider, q: Provider) {
    if p.results == [] then false
    else if q.results == [] then Successes(p) > 0
    else Successes(p) * |q.results| > Successes(q) * |p.results|
  }

  /** The last three results are failures. */
  predicate KeepsFailing(p: Provider) {
    |p.results| >= 3 && forall k :: |p.results| - 3 <= k < |p.results| ==> p.results[k].Failed?
  }

  ghost predicate ShouldPromote(providers: seq<Provider>) {
    && providers != []
    && (exists p :: p in providers && IsCandidate(p))
    && ((exists p :: p in providers && IsCandidate(p) && HasHigherRate(p, providers[0])) || KeepsFailing(providers[0]))
  }

  /** The first of the candidates with the highest rate. */
  ghost predicate IsBestCandidate(providers: seq<Provider>, i: nat) {
    && 0 < i < |providers| && IsCandidate(providers[i])
    && (forall p :: p in providers && IsCandidate(p) ==> !HasHigherRate(p, providers[i]))
    && (forall j :: 0 <= j < i && IsCandidate(providers[j]) ==> HasHigherRate(providers[i], providers[j]))
  }

  lemma RateTimesCount(results: seq<Outcome>)
    requires results != []
    ensures SuccessRate(results) * (|results| as real) == |SuccessTimes(results)| as real
  {
    hide SuccessTimes;
  }

  lemma InHundredths(s: nat, n: nat)
    ensures s as real >= 0.95 * (n as real) <==> 100 * s >= 95 * n
  {
    assert (100 * s) as real == 100.0 * (s as real);
    assert (95 * n) as real == 95.0 * (n as real);
  }

  lemma NonNegativeTimes(a: real, n: real)
    requires n > 0.0
    ensures a >= 0.0 <==> a * n >= 0.0
  {
  }

  lemma AtLeast95(q: real, n: real, product: real)
    requires n > 0.0 && q * n == product
    ensures q >= 0.95 <==> product >= 0.95 * n
  {
    NonNegativeTimes(q - 0.95, n);
    assert (q - 0.95) * n == product - 0.95 * n;
  }

  lemma {:induction false} EligibleIffCandidate(p: Provider)
    ensures Eligible(p) <==> IsCandidate(p)
  {
    hide SuccessRate, SuccessTimes;
    if p.results != [] {
      RateTimesCount(p.results);
      AtLeast95(SuccessRate(p.results), |p.results| as real, |SuccessTimes(p.results)| as real);
      InHundredths(|SuccessTimes(p.results)|, |p.results|);
    }
  }

  lemma CrossMultiplied(a: real, b: real, m: real, n: real)
    requires m > 0.0 && n > 0.0
    ensures a > b <==> (a * m) * n > (b * n) * m
  {
    assert (a - b) * (m * n) == (a * m) * n - (b * n) * m;
    assert m * n > 0.0;
  }

  /** The quotient s / m is above t / n exactly if their cross products are in that order. */
  lemma {:induction false} QuotientOrder(a: real, b: real, s: nat, m: nat, t: nat, n: nat)
    requires m > 0 && a * (m as real) == s as real
    requires n > 0 && b * (n as real) == t as real
    ensures a > b <==> s * n > t * m
  {
    CrossMultiplied(a, b, m as real, n as real);
    InReals(s, n);
    InReals(t, m);
  }

  lemma {:induction false} RateOrder(p: Provider, q: Provider)
    ensures SuccessRate(p.results) > SuccessRate(q.results) <==> HasHigherRate(p, q)
  {
    hide SuccessRate, SuccessTimes;
    NoRate();
    SuccessRateIsFraction(q.results);
    if p.results != [] {
      RateTimesCount(p.results);
      if q.results != [] {
        RateTimesCount(q.results);
        QuotientOrder(SuccessRate(p.results), SuccessRate(q.results),
                      |SuccessTimes(p.results)|, |p.results|, |SuccessTimes(q.results)|, |q.results|);
      } else {
        SuccessRateIsFraction(p.results);
        PositiveScaled(SuccessRate(p.results), |p.results| as real);
      }
    }
  }

  lemma NoRate()
    ensures SuccessRate([]) == 0.0
  {
  }

  lemma InReals(a: nat, b: nat)
    ensures (a as real) * (b as real) == (a * b) as real
  {
  }

  lemma PositiveScaled(q: real, n: real)
    requires n > 0.0 && q >= 0.0
    ensures q > 0.0 <==> q * n > 0.0
  {
  }

  lemma {:induction false} TrailingIffLastFailed(results: seq<Outcome>, count: nat)
    ensures TrailingFailures(results) >= count <==>
            |results| >= count && forall k :: |results| - count <= k < |results| ==> results[k].Failed?
  {
    if results != [] && count > 0 {
      var n := |results| - 1;
      TrailingIffLastFailed(results[..n], count - 1);
      if results[n].Failed? {
        assert TrailingFailures(results) == TrailingFailures(results[..n]) + 1;
        assert forall k :: 0 <= k < n ==> results[..n][k] == results[k];
      }
    }
  }

  lemma {:induction false} BeatsIff(best: Provider, primary: Provider)
    ensures Beats(best, primary) <==> HasHigherRate(best, primary) || KeepsFailing(primary)
  {
    hide SuccessRate, TrailingFailures, HasHigherRate;
    RateOrder(best, primary);
    TrailingIffLastFailed(primary.results, 3);
  }

  lemma {:induction false} BestIsCandidate(providers: seq<Provider>, i: nat)
    requires InOrder(providers) && IsBest(providers, i)
    ensures IsBestCandidate(providers, i)
  {
    hide SuccessRate, HasHigherRate, IsCandidate, Eligible;
    EligibleIffCandidate(providers[i]);
    assert i > 0 by {
      CandidateIsFallback(providers[i]);
    }
    forall j | 0 <= j < |providers| && IsCandidate(providers[j]) ensures !HasHigherRate(providers[j], providers[i]) {
      EligibleIffCandidate(providers[j]);
      RateOrder(providers[j], providers[i]);
    }
    forall j | 0 <= j < i && IsCandidate(providers[j]) ensures HasHigherRate(providers[i], providers[j]) {
      EligibleIffCandidate(providers[j]);
      RateOrder(providers[i], providers[j]);
    }
  }

  lemma CandidateIsFallback(p: Provider)
    requires IsCandidate(p)
    ensures p.priority != 0
  {
  }

  /** A higher rate than the primary's among the candidates is one of the best candidate. */
  lemma {:induction false} BestHasHigherRate(providers: seq<Provider>, i: nat, j: nat)
    requires IsBest(providers, i) && j < |providers| && IsCandidate(providers[j]) && HasHigherRate(providers[j], providers[0])
    ensures HasHigherRate(providers[i], providers[0])
  {
    hide SuccessRate, HasHigherRate, IsCandidate, Eligible;
    EligibleIffCandidate(providers[j]);
    RateOrder(providers[j], providers[0]);
    RateOrder(providers[i], providers[0]);
  }

  /** What the promotion check decides, by the results of the providers alone. */
  lemma {:induction false} DecisionIff(providers: seq<Provider>)
    requires InOrder(providers)
    ensures Decision(providers).Some? <==> ShouldPromote(providers)
    ensures Decision(providers).Some? ==> IsBestCandidate(providers, Decision(providers).value)
  {
    hide SuccessRate, HasHigherRate, IsCandidate, Eligible, Beats, KeepsFailing, IsBest, IsBestCandidate, Best;
    BestIsBest(providers);
    var best := Best(providers, |providers|);
    if best.Some? {
      var i := best.value;
      IsBestIsEligible(providers, i);
      EligibleIffCandidate(providers[i]);
      BestIsCandidate(providers, i);
      BeatsIff(providers[i], providers[0]);
      if p :| p in providers && IsCandidate(p) && HasHigherRate(p, providers[0]) {
        var j :| 0 <= j < |providers| && providers[j] == p;
        BestHasHigherRate(providers, i, j);
      }
      assert providers[i] in providers;
    } else {
      forall p | p in providers ensures !IsCandidate(p) {
        EligibleIffCandidate(p);
      }
    }
  }

  lemma IsBestIsEligible(providers: seq<Provider>, i: nat)
    requires IsBest(providers, i)
    ensures i < |providers| && Eligible(providers[i])
  {
  }

  // ----- The manager of one chain -----

  function Find(providers: seq<Provider>, url: string): (i: nat)
    ensures i <= |providers|
    ensures i < |providers| ==> providers[i].url == url
    ensures forall j :: 0 <= j < i ==> providers[j].url != url
  {
    if providers == [] then 0
    else if providers[0].url == url then 0
    else
      var i := Find(providers[1..], url);
      assert forall j :: 0 < j < i + 1 ==> providers[j] == providers[1..][j - 1];
      i + 1
  }

  function Updated(p: Provider, update: Update): Provider {
    p.(priority := if update.priority.Some? then update.priority.value else p.priority,
       state := if update.state.Some? then update.state.value else p.state)
  }

  function UpdatedList(providers: seq<Provider>, updates: seq<Update>): (result: seq<Provider>)
    ensures |result| == |providers|
  {
    if updates == [] then providers
    else
      var front := UpdatedList(providers, updates[..|updates| - 1]);
      var update := updates[|updates| - 1];
      var i := Find(front, update.url);
      if i < |front| then front[i := Updated(front[i], update)] else front
  }

  function Synced(providers: seq<Provider>, updates: seq<Update>): seq<Provider> {
    Sorted(UpdatedList(providers, updates))
  }

  /** Providers 0 and i have changed places and priorities and start with fresh metrics; nothing else has changed. */
  predicate HaveSwapped(before: seq<Provider>, i: nat, after: seq<Provider>)
    requires i < |before|
  {
    && |after| == |before|
    && after[0] == Provider(before[i].url, 0, before[i].state, [])
    && after[i] == Provider(before[0].url, i, before[0].state, [])
    && forall j :: 0 < j < |before| && j != i ==> after[j] == before[j]
  }

  lemma PromotedIsSwapped(providers: seq<Provider>, i: nat)
    requires 0 < i < |providers|
    ensures HaveSwapped(providers, i, Promoted(providers, i))
  {
  }

  lemma BestCandidateIsFallback(providers: seq<Provider>, i: nat)
    requires IsBestCandidate(providers, i)
    ensures 0 < i < |providers|
  {
  }

  class RpcChain {
    var providers: seq<Provider>
    /** The sync messages emitted so far. */
    var sent: seq<seq<Update>>

    /** The list is in the order of the priorities 0 to n - 1. */
    ghost predicate Valid()
      reads this
    {
      InOrder(providers) && DistinctUrls(providers)
    }

    constructor (rpcs: seq<string>)
      requires forall i, j :: 0 <= i < j < |rpcs| ==> rpcs[i] != rpcs[j]
      ensures Valid() && providers == Prepared(rpcs) && sent == []
    {
      providers, sent := Prepared(rpcs), [];
    }

    method GetPrimaryRpcProvider() returns (primary: Option<Provider>)
      requires Valid()
      ensures primary == if providers == [] then None else Some(providers[0])
      ensures primary.Some? ==> primary.value.priority == 0
    {
      var primaries: seq<Provider> := [];
      for i := 0 to |providers|
        invariant primaries == if i == 0 then [] else [providers[0]]
      {
        if providers[i].priority == 0 {
          primaries := primaries + [providers[i]];
        }
      }
      primary := if |primaries| > 0 then Some(primaries[0]) else None;
    }

    /** The result of one health check of the provider at position i. */
    method RecordHealthCheck(i: nat, result: Outcome)
      requires Valid() && i < |providers|
      modifies this
      ensures Valid() && providers == old(providers)[i := AfterCheck(old(providers)[i], result)]
      ensures var message := CheckMessage(old(providers)[i], result);
              sent == if message == [] then old(sent) else old(sent) + [message]
    {
      var provider := providers[i];
      if result.Succeeded? {
        if TrailingFailures(provider.results) > 0 {
          provider := provider.(state := Active);
          sent := sent + [[Update(provider.url, None, Some(provider.state))]];
        }
        provider := provider.(results := provider.results + [result]);
      } else {
        provider := provider.(results := provider.results + [result]);
        if TrailingFailures(provider.results) >= FAILURE_THRESHOLD {
          provider := provider.(state := Degraded);
          sent := sent + [[Update(provider.url, None, Some(provider.state))]];
        }
      }
      providers := providers[i := provider];
    }

    method CheckForPromotion()
      requires Valid()
      modifies this
      ensures Valid()
      ensures match Decision(old(providers))
              case None => providers == old(providers) && sent == old(sent)
              case Some(i) =>
                && 0 < i < |old(providers)|
                && providers == Promoted(old(providers), i) && sent == old(sent) + [Snapshot(providers)]
      ensures !ShouldPromote(old(providers)) ==> providers == old(providers) && sent == old(sent)
      ensures ShouldPromote(old(providers)) ==>
                exists i :: IsBestCandidate(old(providers), i) && HaveSwapped(old(providers), i, providers)
    {
      hide SuccessRate, ShouldPromote, IsBestCandidate;
      DecisionIff(providers);
      if Decision(providers).Some? {
        BestCandidateIsFallback(providers, Decision(providers).value);
        PromotedIsSwapped(providers, Decision(providers).value);
      }
      if |providers| == 0 {
        return;
      }
      var bestFallback: Option<nat>, bestSuccessRate := None, 0.0;
      for n := 0 to |providers|
        invariant bestFallback == Best(providers, n)
        invariant bestSuccessRate == if bestFallback.Some? then Rate(providers[bestFallback.value]) else 0.0
        invariant providers == old(providers) && sent == old(sent)
      {
        if Eligible(providers[n]) && Rate(providers[n]) > bestSuccessRate {
          bestFallback, bestSuccessRate := Some(n), Rate(providers[n]);
        }
      }
      if bestFallback.Some? && Beats(providers[bestFallback.value], providers[0]) {
        PromoteProvider(bestFallback.value);
      }
    }

    method PromoteProvider(i: nat)
      requires Valid() && 0 < i < |providers|
      modifies this
      ensures Valid()
      ensures providers == Promoted(old(providers), i) && sent == old(sent) + [Snapshot(providers)]
    {
      hide Sorted;
      var newPrimary, oldPrimary := providers[i], providers[0];
      SwapAndSort(providers, i);
      var tempPriority := oldPrimary.priority;
      oldPrimary := oldPrimary.(priority := newPrimary.priority, results := []);
      newPrimary := newPrimary.(priority := tempPriority, results := []);
      assert providers[0 := oldPrimary][i := newPrimary] == Swapped(providers, i);
      providers := Sorted(providers[0 := oldPrimary][i := newPrimary]);
      sent := sent + [Snapshot(providers)];
    }

    /** A worker thread takes over the priorities and states of a message. */
    method SyncProviders(updates: seq<Update>)
      modifies this
      ensures providers == Synced(old(providers), updates) && sent == old(sent)
    {
      for k := 0 to |updates|
        invariant providers == UpdatedList(old(providers), updates[..k]) && sent == old(sent)
      {
        assert updates[..k + 1][..k] == updates[..k];
        var i := Find(providers, updates[k].url);
        if i < |providers| {
          providers := providers[i := Updated(providers[i], updates[k])];
        }
      }
      assert updates[..|updates|] == updates;
      providers := Sorted(providers);
    }
  }
}
