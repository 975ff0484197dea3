/** What every run of health checks and promotions keeps, in the master thread and in its replicas. */
module RpcRuns {
  import opened ProviderMetrics
  import opened RpcManagers
  import opened UserOps

  datatype Event = Check(i: nat, result: Outcome) | PromotionCheck

  predicate Enabled(providers: seq<Provider>, e: Event) {
    e.Check? ==> e.i < |providers|
  }

  function After(providers: seq<Provider>, e: Event): seq<Provider>
    requires Enabled(providers, e)
  {
    match e
    case Check(i, result) => providers[i := AfterCheck(providers[i], result)]
    case PromotionCheck =>
      var promoted := Decision(providers);
      if promoted.Some? && promoted.value != 0 then Promoted(providers, promoted.value) else providers
  }

  lemma {:induction false} DecisionIsBest(providers: seq<Provider>)
    requires InOrder(providers)
    ensures Decision(providers).Some? ==>
              var i := Decision(providers).value;
              && 0 < i < |providers| && IsBest(providers, i) && Beats(providers[i], providers[0])
              && |providers[i].results| >= MINIMUM_REQUESTS
  {
    hide SuccessRate;
    BestIsBest(providers);
  }

  /** The sync message of an event; no event sends an empty one. */
  function Message(providers: seq<Provider>, e: Event): seq<Update>
    requires Enabled(providers, e)
  {
    match e
    case Check(i, result) => CheckMessage(providers[i], result)
    case PromotionCheck => if Decision(providers).Some? then Snapshot(After(providers, e)) else []
  }

  // ----- The master -----

  ghost predicate FailingIsDegraded(providers: seq<Provider>) {
    forall p :: p in providers && TrailingFailures(p.results) >= FAILURE_THRESHOLD ==> p.state.Degraded?
  }

  ghost predicate Sound(providers: seq<Provider>) {
    InOrder(providers) && DistinctUrls(providers) && FailingIsDegraded(providers)
  }

  lemma {:induction false} CheckKeepsDegraded(p: Provider, result: Outcome)
    requires TrailingFailures(p.results) >= FAILURE_THRESHOLD ==> p.state.Degraded?
    ensures var p' := AfterCheck(p, result);
            TrailingFailures(p'.results) >= FAILURE_THRESHOLD ==> p'.state.Degraded?
  {
    assert (p.results + [result])[..|p.results|] == p.results;
  }

  lemma {:induction false} EventKeepsSound(providers: seq<Provider>, e: Event)
    requires Sound(providers) && Enabled(providers, e)
    ensures Sound(After(providers, e)) && |After(providers, e)| == |providers|
  {
    hide SuccessRate;
    match e
    case Check(i, result) =>
      CheckKeepsDegraded(providers[i], result);
    case PromotionCheck =>
      DecisionIsBest(providers);
  }

  predicate IsRun(providers: seq<Provider>, events: seq<Event>)
    decreases |events|
  {
    events == [] || (Enabled(providers, events[0]) && IsRun(After(providers, events[0]), events[1..]))
  }

  function AfterAll(providers: seq<Provider>, events: seq<Event>): seq<Provider>
    requires IsRun(providers, events)
    decreases |events|
  {
    if events == [] then providers else AfterAll(After(providers, events[0]), events[1..])
  }

  /**
   * In every run, the priorities stay 0 to n - 1 in the order of the list, so there is exactly one
   * primary, and a provider whose last three results failed is degraded.
   */
  lemma {:induction false} RunKeepsSound(providers: seq<Provider>, events: seq<Event>)
    requires Sound(providers) && IsRun(providers, events)
    ensures Sound(AfterAll(providers, events)) && |AfterAll(providers, events)| == |providers|
    decreases |events|
  {
    if events != [] {
      EventKeepsSound(providers, events[0]);
      RunKeepsSound(After(providers, events[0]), events[1..]);
    }
  }

  lemma {:induction false} PreparedIsSound(rpcs: seq<string>)
    requires forall i, j :: 0 <= i < j < |rpcs| ==> rpcs[i] != rpcs[j]
    ensures Sound(Prepared(rpcs))
  {
  }

  // ----- Replicas -----

  /** What a worker thread must agree on: URLs, priorities and states, in order. */
  ghost predicate SameView(a: seq<Provider>, b: seq<Provider>) {
    && |a| == |b|
    && forall i :: 0 <= i < |a| ==> a[i].url == b[i].url && a[i].priority == b[i].priority && a[i].state == b[i].state
  }

  lemma {:induction false} FindByIndex(providers: seq<Provider>, i: nat)
    requires DistinctUrls(providers) && i < |providers|
    ensures Find(providers, providers[i].url) == i
  {
    var j := Find(providers, providers[i].url);
  }

  /** An in-order list is not changed by sorting. */
  lemma {:induction false} SortedAlready(providers: seq<Provider>)
    requires InOrder(providers)
    ensures Sorted(providers) == providers
  {
    SortRestores(providers, providers);
  }

  /** A message about one provider's state. */
  lemma {:induction false} StateSyncs(worker: seq<Provider>, i: nat, state: State)
    requires InOrder(worker) && DistinctUrls(worker) && i < |worker|
    ensures Synced(worker, [Update(worker[i].url, None, Some(state))]) == worker[i := worker[i].(state := state)]
  {
    hide Sorted;
    var message := [Update(worker[i].url, None, Some(state))];
    FindByIndex(worker, i);
    assert message[..0] == [];
    assert UpdatedList(worker, message) == worker[i := worker[i].(state := state)];
    SortedAlready(worker[i := worker[i].(state := state)]);
  }

  lemma {:induction false} CheckSyncs(master: seq<Provider>, worker: seq<Provider>, i: nat, result: Outcome)
    requires Sound(master) && SameView(master, worker) && i < |master|
    ensures var message := CheckMessage(master[i], result);
            SameView(After(master, Check(i, result)), if message == [] then worker else Synced(worker, message))
  {
    hide Synced, TrailingFailures;
    if CheckMessage(master[i], result) != [] {
      StateSyncs(worker, i, AfterCheck(master[i], result).state);
    }
  }

  /** The updates name each URL once and set priority and state; every provider has taken over its own. */
  ghost predicate TakenOver(before: seq<Provider>, after: seq<Provider>, updates: seq<Update>) {
    && |after| == |before|
    && forall j :: 0 <= j < |after| ==>
         && after[j].url == before[j].url && after[j].results == before[j].results
         && forall k :: 0 <= k < |updates| && updates[k].url == after[j].url ==>
              updates[k].priority == Some(after[j].priority) && updates[k].state == Some(after[j].state)
  }

  lemma {:induction false} UpdatesAreTakenOver(worker: seq<Provider>, updates: seq<Update>)
    requires DistinctUrls(worker)
    requires forall i, j :: 0 <= i < j < |updates| ==> updates[i].url != updates[j].url
    requires forall u :: u in updates ==> u.priority.Some? && u.state.Some?
    ensures TakenOver(worker, UpdatedList(worker, updates), updates)
  {
    if updates != [] {
      var n := |updates| - 1;
      UpdatesAreTakenOver(worker, updates[..n]);
      var front := UpdatedList(worker, updates[..n]);
      var i := Find(front, updates[n].url);
      assert updates[n] in updates;
      assert forall k :: 0 <= k < n ==> updates[..n][k] == updates[k];
    }
  }

  /** The same URLs in the same order. */
  ghost predicate SameOrder(a: seq<Provider>, b: seq<Provider>) {
    && |a| == |b|
    && forall i :: 0 <= i < |a| ==> a[i].url == b[i].url && a[i].priority == b[i].priority
  }

  /** The worker, had it the master's states. */
  function Corrected(master: seq<Provider>, worker: seq<Provider>): (corrected: seq<Provider>)
    requires |master| == |worker|
    ensures |corrected| == |worker|
  {
    seq(|worker|, j requires 0 <= j < |worker| => worker[j].(state := master[j].state))
  }

  /** A promotion's message brings any worker with the master's order to the master's view, whatever states it had. */
  lemma {:induction false} PromotionSyncs(master: seq<Provider>, worker: seq<Provider>, i: nat)
    requires Sound(master) && SameOrder(master, worker) && 0 < i < |master|
    ensures SameView(Promoted(master, i), Synced(worker, Snapshot(Promoted(master, i))))
  {
    hide Sorted, UpdatedList, FailingIsDegraded;
    var updates := Snapshot(Promoted(master, i));
    var corrected := Corrected(master, worker);
    UpdatesAreTakenOver(worker, updates);
    SwappedByUpdates(master, worker, UpdatedList(worker, updates), i);
    SwapSorts(corrected, i);
  }

  lemma {:induction false} SwapSorts(worker: seq<Provider>, i: nat)
    requires InOrder(worker) && 0 < i < |worker|
    ensures var p, q := worker[0].(priority := i), worker[i].(priority := 0);
            Sorted(worker[0 := p][i := q]) == worker[0 := q][i := p]
  {
    hide Sorted;
    var p, q := worker[0].(priority := i), worker[i].(priority := 0);
    assert multiset(worker[0 := p][i := q]) == multiset(worker[0 := q][i := p]);
    SortRestores(worker[0 := p][i := q], worker[0 := q][i := p]);
  }

  /** Taking over a promotion's snapshot sets the states and swaps the two priorities in place. */
  lemma {:induction false} SwappedByUpdates(master: seq<Provider>, worker: seq<Provider>, after: seq<Provider>, i: nat)
    requires InOrder(master) && SameOrder(master, worker) && 0 < i < |master|
    requires TakenOver(worker, after, Snapshot(Promoted(master, i)))
    ensures var corrected := Corrected(master, worker);
            after == corrected[0 := corrected[0].(priority := i)][i := corrected[i].(priority := 0)]
  {
    var updates := Snapshot(Promoted(master, i));
    var corrected := Corrected(master, worker);
    forall j | 0 <= j < |worker|
      ensures after[j] == corrected[0 := corrected[0].(priority := i)][i := corrected[i].(priority := 0)][j]
    {
      var k := if j == 0 then i else if j == i then 0 else j;
      assert updates[k].url == after[j].url;
    }
  }

  lemma {:induction false} EventSyncs(master: seq<Provider>, worker: seq<Provider>, e: Event)
    requires Sound(master) && SameView(master, worker) && Enabled(master, e)
    ensures var message := Message(master, e);
            SameView(After(master, e), if message == [] then worker else Synced(worker, message))
  {
    hide SuccessRate, Synced, AfterCheck, CheckMessage, Best;
    match e
    case Check(i, result) => CheckSyncs(master, worker, i, result);
    case PromotionCheck =>
      DecisionIsBest(master);
      if Decision(master).Some? {
        PromotionSyncs(master, worker, Decision(master).value);
      }
  }

  /** A worker that has received the messages of a run, one by one and in order. */
  function Replica(worker: seq<Provider>, master: seq<Provider>, events: seq<Event>): seq<Provider>
    requires IsRun(master, events)
    decreases |events|
  {
    if events == [] then worker
    else
      var message := Message(master, events[0]);
      Replica(if message == [] then worker else Synced(worker, message), After(master, events[0]), events[1..])
  }

  /** A worker that starts with the master's list ends with the master's order and states. */
  lemma {:induction false} ReplicaFollows(master: seq<Provider>, worker: seq<Provider>, events: seq<Event>)
    requires Sound(master) && SameView(master, worker) && IsRun(master, events)
    ensures SameView(AfterAll(master, events), Replica(worker, master, events))
    decreases |events|
  {
    if events != [] {
      var message := Message(master, events[0]);
      EventKeepsSound(master, events[0]);
      EventSyncs(master, worker, events[0]);
      ReplicaFollows(After(master, events[0]), if message == [] then worker else Synced(worker, message), events[1..]);
    }
  }

  /** Master and workers that are set up from the same URLs agree after every run. */
  lemma {:induction false} ReplicasConverge(rpcs: seq<string>, events: seq<Event>)
    requires forall i, j :: 0 <= i < j < |rpcs| ==> rpcs[i] != rpcs[j]
    requires IsRun(Prepared(rpcs), events)
    ensures SameView(AfterAll(Prepared(rpcs), events), Replica(Prepared(rpcs), Prepared(rpcs), events))
  {
    PreparedIsSound(rpcs);
    ReplicaFollows(Prepared(rpcs), Prepared(rpcs), events);
  }

  // ----- A worker that is set up late -----

  /** The configuration shared by all threads is in the master's current order; set-up makes every provider active. */
  function SetUp(master: seq<Provider>): (worker: seq<Provider>)
    ensures |worker| == |master|
  {
    seq(|master|, i requires 0 <= i < |master| => master[i].(state := Active, results := []))
  }

  function Named(message: seq<Update>): set<string> {
    set u <- message :: u.url
  }

  /** The URLs of `stale` that no message of the run names. */
  function Unnamed(stale: set<string>, master: seq<Provider>, events: seq<Event>): set<string>
    requires IsRun(master, events)
    decreases |events|
  {
    if events == [] then stale
    else Unnamed(stale - Named(Message(master, events[0])), After(master, events[0]), events[1..])
  }

  function DegradedUrls(providers: seq<Provider>): set<string> {
    set p <- providers | p.state.Degraded? :: p.url
  }

  /** The master's view, except that the stale providers, degraded in the master, are active. */
  ghost predicate LaggingView(master: seq<Provider>, worker: seq<Provider>, stale: set<string>) {
    && SameOrder(master, worker)
    && forall j :: 0 <= j < |master| ==>
         if master[j].url in stale then master[j].state.Degraded? && worker[j].state.Active?
         else worker[j].state == master[j].state
  }

  lemma {:induction false} CheckKeepsLag(master: seq<Provider>, worker: seq<Provider>, i: nat, result: Outcome,
                                         stale: set<string>)
    requires Sound(master) && LaggingView(master, worker, stale) && i < |master|
    ensures var message := CheckMessage(master[i], result);
            LaggingView(After(master, Check(i, result)), if message == [] then worker else Synced(worker, message),
                        stale - Named(message))
  {
    hide Synced, TrailingFailures;
    var message := CheckMessage(master[i], result);
    if message != [] {
      StateSyncs(worker, i, AfterCheck(master[i], result).state);
      assert message[0] in message;
      assert Named(message) == {master[i].url};
    }
  }

  lemma {:induction false} PromotionEndsLag(master: seq<Provider>, worker: seq<Provider>, i: nat, stale: set<string>)
    requires Sound(master) && LaggingView(master, worker, stale) && 0 < i < |master|
    ensures var message := Snapshot(Promoted(master, i));
            LaggingView(Promoted(master, i), Synced(worker, message), stale - Named(message))
  {
    hide Synced, FailingIsDegraded, DistinctUrls;
    PromotionSyncs(master, worker, i);
    var message := Snapshot(Promoted(master, i));
    forall j | 0 <= j < |master| ensures Promoted(master, i)[j].url in Named(message) {
      assert message[j] in message;
    }
  }

  lemma {:induction false} EventKeepsLag(master: seq<Provider>, worker: seq<Provider>, e: Event, stale: set<string>)
    requires Sound(master) && LaggingView(master, worker, stale) && Enabled(master, e)
    ensures var message := Message(master, e);
            LaggingView(After(master, e), if message == [] then worker else Synced(worker, message), stale - Named(message))
  {
    hide SuccessRate, Synced, AfterCheck, CheckMessage, Best;
    match e
    case Check(i, result) => CheckKeepsLag(master, worker, i, result, stale);
    case PromotionCheck =>
      DecisionIsBest(master);
      if Decision(master).Some? {
        PromotionEndsLag(master, worker, Decision(master).value, stale);
      } else {
        assert stale - Named([]) == stale;
      }
  }

  lemma {:induction false} LagFollows(master: seq<Provider>, worker: seq<Provider>, events: seq<Event>, stale: set<string>)
    requires Sound(master) && LaggingView(master, worker, stale) && IsRun(master, events)
    ensures LaggingView(AfterAll(master, events), Replica(worker, master, events), Unnamed(stale, master, events))
    decreases |events|
  {
    hide LaggingView, Sound, Message;
    if events != [] {
      var message := Message(master, events[0]);
      EventKeepsSound(master, events[0]);
      EventKeepsLag(master, worker, events[0], stale);
      LagFollows(After(master, events[0]), if message == [] then worker else Synced(worker, message), events[1..],
                 stale - Named(message));
    }
  }

  /**
   * A worker set up in the middle of a run agrees with the master in order and priorities, and in
   * the states of all providers but those that were degraded then and that no message has named
   * since: these are still degraded in the master, and active in the worker.
   */
  lemma {:induction false} LateReplicaLags(rpcs: seq<string>, earlier: seq<Event>, later: seq<Event>)
    requires forall i, j :: 0 <= i < j < |rpcs| ==> rpcs[i] != rpcs[j]
    requires IsRun(Prepared(rpcs), earlier) && IsRun(AfterAll(Prepared(rpcs), earlier), later)
    ensures var master := AfterAll(Prepared(rpcs), earlier);
            LaggingView(AfterAll(master, later), Replica(SetUp(master), master, later),
                        Unnamed(DegradedUrls(master), master, later))
  {
    var master := AfterAll(Prepared(rpcs), earlier);
    PreparedIsSound(rpcs);
    RunKeepsSound(Prepared(rpcs), earlier);
    forall j | 0 <= j < |master|
      ensures master[j].url in DegradedUrls(master) <==> master[j].state.Degraded?
    {
      if master[j].url in DegradedUrls(master) {
        var p :| p in master && p.state.Degraded? && p.url == master[j].url;
        var i :| 0 <= i < |master| && master[i] == p;
        assert i == j;
      } else {
        assert master[j] in master;
      }
    }
    LagFollows(master, SetUp(master), later, DegradedUrls(master));
  }

  // ----- Degraded providers -----

  function AfterChecks(p: Provider, results: seq<Outcome>): Provider {
    if results == [] then p
    else AfterCheck(AfterChecks(p, results[..|results| - 1]), results[|results| - 1])
  }

  /** Some failure is directly followed by a success. */
  ghost predicate Recovers(results: seq<Outcome>) {
    exists k :: 0 < k < |results| && results[k - 1].Failed? && results[k].Succeeded?
  }

  lemma {:induction false} TrailingOfSum(before: seq<Outcome>, results: seq<Outcome>)
    requires TrailingFailures(before) == 0
    ensures TrailingFailures(before + results) == TrailingFailures(results)
  {
    if results == [] {
      assert before + results == before;
    } else {
      var n := |results| - 1;
      TrailingOfSum(before, results[..n]);
      assert (before + results)[..|before| + n] == before + results[..n];
    }
  }

  lemma {:induction false} NothingRecovers(results: seq<Outcome>)
    requires forall r :: r in results ==> r.Succeeded?
    ensures !Recovers(results)
  {
    assert forall j :: 0 <= j < |results| ==> results[j] in results;
  }

  lemma {:induction false} TrailingMeansFailed(results: seq<Outcome>)
    ensures TrailingFailures(results) > 0 <==> results != [] && results[|results| - 1].Failed?
  {
  }

  lemma {:induction false} RecoversStep(results: seq<Outcome>, result: Outcome)
    ensures Recovers(results + [result]) <==> Recovers(results) || (TrailingFailures(results) > 0 && result.Succeeded?)
  {
    var n := |results|;
    var longer := results + [result];
    TrailingMeansFailed(results);
    if Recovers(results) {
      var k :| 0 < k < |results| && results[k - 1].Failed? && results[k].Succeeded?;
      assert longer[k - 1].Failed? && longer[k].Succeeded?;
    } else if TrailingFailures(results) > 0 && result.Succeeded? {
      assert longer[n - 1].Failed? && longer[n].Succeeded?;
    }
  }

  lemma {:induction false} AfterCheckIff(p: Provider, result: Outcome)
    ensures var p' := AfterCheck(p, result);
            var longer := p.results + [result];
            && p' == p.(state := p'.state, results := longer)
            && TrailingFailures(longer) == (if result.Succeeded? then 0 else TrailingFailures(p.results) + 1)
            && (p'.state.Degraded? <==> TrailingFailures(longer) >= FAILURE_THRESHOLD
                                        || (p.state.Degraded? && !(TrailingFailures(p.results) > 0 && result.Succeeded?)))
  {
    assert (p.results + [result])[..|p.results|] == p.results;
  }

  /**
   * Checks of a provider without counted failures leave it degraded exactly if they end with three
   * failures, or it was degraded and no failure among them is followed by a success.
   */
  lemma {:induction false} DegradedAfterIff(p: Provider, results: seq<Outcome>)
    requires TrailingFailures(p.results) == 0
    ensures var p' := AfterChecks(p, results);
            && p' == p.(state := p'.state, results := p.results + results)
            && (p'.state.Degraded? <==>
                  TrailingFailures(results) >= FAILURE_THRESHOLD || (p.state.Degraded? && !Recovers(results)))
  {
    hide Recovers, AfterCheck;
    if results == [] {
      assert p.results + results == p.results;
      NothingRecovers(results);
    } else {
      hide TrailingFailures;
      var n := |results| - 1;
      var front := results[..n];
      DegradedAfterIff(p, front);
      AfterCheckIff(AfterChecks(p, front), results[n]);
      AfterCheckIff(p.(results := front), results[n]);
      TrailingOfSum(p.results, front);
      TrailingOfSum(p.results, results);
      RecoversStep(front, results[n]);
      assert front + [results[n]] == results;
      assert (p.results + front) + [results[n]] == p.results + results;
    }
  }

  /** So a promotion that reset its metrics while it was degraded makes recovery need a failure and a success after it. */
  lemma {:induction false} RecoveryNeedsFailureThenSuccess(p: Provider, results: seq<Outcome>)
    requires p.state.Degraded? && TrailingFailures(p.results) == 0
    ensures AfterChecks(p, results).state.Active? <==> Recovers(results) && TrailingFailures(results) < FAILURE_THRESHOLD
    ensures (forall r :: r in results ==> r.Succeeded?) ==> AfterChecks(p, results).state.Degraded?
  {
    DegradedAfterIff(p, results);
    if forall r :: r in results ==> r.Succeeded? {
      NothingRecovers(results);
    }
  }

  // ----- States over whole runs -----

  /** The states that the providers had when their metrics were last reset: by the set-up, or by a promotion. */
  function ResetStates(states: seq<State>, providers: seq<Provider>, events: seq<Event>): seq<State>
    requires |states| == |providers| && IsRun(providers, events)
    decreases |events|
  {
    if events == [] then states
    else ResetStates(StatesAfter(states, providers, events[0]), After(providers, events[0]), events[1..])
  }

  function StatesAfter(states: seq<State>, providers: seq<Provider>, e: Event): (states': seq<State>)
    requires |states| == |providers| && Enabled(providers, e)
    ensures |states'| == |After(providers, e)|
  {
    if e.PromotionCheck? && Decision(providers).Some? && Decision(providers).value != 0 then
      states[0 := providers[Decision(providers).value].state][Decision(providers).value := providers[0].state]
    else
      states
  }

  /** The provider is where its results since the reset have taken it. */
  ghost predicate FromReset(p: Provider, state: State) {
    p == AfterChecks(p.(state := state, results := []), p.results)
  }

  ghost predicate AllFromReset(providers: seq<Provider>, states: seq<State>) {
    |states| == |providers| && forall i :: 0 <= i < |providers| ==> FromReset(providers[i], states[i])
  }

  lemma {:induction false} CheckKeepsFromReset(p: Provider, state: State, result: Outcome)
    requires FromReset(p, state)
    ensures FromReset(AfterCheck(p, result), state)
  {
    var p' := AfterCheck(p, result);
    assert p'.results[..|p.results|] == p.results;
    assert p'.(state := state, results := []) == p.(state := state, results := []);
  }

  lemma {:induction false} EventKeepsFromReset(providers: seq<Provider>, states: seq<State>, e: Event)
    requires AllFromReset(providers, states) && Enabled(providers, e)
    ensures AllFromReset(After(providers, e), StatesAfter(states, providers, e))
  {
    match e
    case Check(i, result) =>
      hide FromReset, AfterCheck;
      CheckKeepsFromReset(providers[i], states[i], result);
    case PromotionCheck =>
      hide Decision;
  }

  lemma {:induction false} RunKeepsFromReset(providers: seq<Provider>, states: seq<State>, events: seq<Event>)
    requires |states| == |providers| && AllFromReset(providers, states) && IsRun(providers, events)
    ensures AllFromReset(AfterAll(providers, events), ResetStates(states, providers, events))
    decreases |events|
  {
    hide AllFromReset;
    if events != [] {
      EventKeepsFromReset(providers, states, events[0]);
      RunKeepsFromReset(After(providers, events[0]), StatesAfter(states, providers, events[0]), events[1..]);
    }
  }

  lemma {:induction false} RunKeepsOrder(providers: seq<Provider>, events: seq<Event>)
    requires InOrder(providers) && IsRun(providers, events)
    ensures InOrder(AfterAll(providers, events)) && |AfterAll(providers, events)| == |providers|
    decreases |events|
  {
    hide SuccessRate, Best, AfterCheck;
    if events != [] {
      if events[0].PromotionCheck? {
        DecisionIsBest(providers);
      } else {
        AfterCheckIff(providers[events[0].i], events[0].result);
      }
      RunKeepsOrder(After(providers, events[0]), events[1..]);
    }
  }

  /**
   * When a provider is degraded, over all runs: if its last three results failed, or if it was
   * degraded when its metrics were reset and no failure since was followed by a success.
   */
  lemma {:induction false} DegradedOverRuns(rpcs: seq<string>, events: seq<Event>, i: nat)
    requires IsRun(Prepared(rpcs), events) && i < |rpcs|
    ensures var providers := AfterAll(Prepared(rpcs), events);
            var reset := ResetStates(seq(|rpcs|, _ => Active), Prepared(rpcs), events);
            && |providers| == |reset| == |rpcs|
            && (providers[i].state.Degraded? <==>
                  || TrailingFailures(providers[i].results) >= FAILURE_THRESHOLD
                  || (reset[i].Degraded? && !Recovers(providers[i].results)))
  {
    hide SuccessRate, Recovers;
    var states := seq(|rpcs|, _ => Active);
    RunKeepsOrder(Prepared(rpcs), events);
    RunKeepsFromReset(Prepared(rpcs), states, events);
    var p := AfterAll(Prepared(rpcs), events)[i];
    var reset := ResetStates(states, Prepared(rpcs), events)[i];
    assert FromReset(p, reset);
    DegradedAfterIff(p.(state := reset, results := []), p.results);
  }

  lemma Scaled(rate: real, total: real)
    requires rate >= PROMOTION_THRESHOLD && total >= 0.0
    ensures rate * total >= 0.95 * total
  {
  }

  /** A rate of 0.95 with three failures at the end takes sixty results. */
  lemma {:induction false} FailingButEligible(results: seq<Outcome>)
    requires SuccessRate(results) >= PROMOTION_THRESHOLD && TrailingFailures(results) >= FAILURE_THRESHOLD
    ensures |results| >= 60
  {
    hide TrailingFailures, SuccessTimes;
    SuccessesAtMostTotal(results);
    var total, successes := |results| as real, |SuccessTimes(results)| as real;
    assert SuccessRate(results) * total == successes;
    Scaled(SuccessRate(results), total);
    assert 0.95 * total <= successes <= total - 3.0;
    assert total >= 60.0;
  }

  /** When the provider that a run promotes is a degraded one. */
  lemma {:induction false} PromotedIsDegradedIff(rpcs: seq<string>, events: seq<Event>)
    requires IsRun(Prepared(rpcs), events) && Decision(AfterAll(Prepared(rpcs), events)).Some?
    ensures var providers := AfterAll(Prepared(rpcs), events);
            var reset := ResetStates(seq(|rpcs|, _ => Active), Prepared(rpcs), events);
            var i := Decision(providers).value;
            && |reset| == |providers|
            && (providers[i].state.Degraded? <==>
                  || TrailingFailures(providers[i].results) >= FAILURE_THRESHOLD
                  || (reset[i].Degraded? && !Recovers(providers[i].results)))
            && (TrailingFailures(providers[i].results) >= FAILURE_THRESHOLD ==> |providers[i].results| >= 60)
  {
    hide SuccessRate, Recovers, Best;
    var providers := AfterAll(Prepared(rpcs), events);
    RunKeepsOrder(Prepared(rpcs), events);
    DecisionIsBest(providers);
    DegradedOverRuns(rpcs, events, Decision(providers).value);
    if TrailingFailures(providers[Decision(providers).value].results) >= FAILURE_THRESHOLD {
      FailingButEligible(providers[Decision(providers).value].results);
    }
  }

  // ----- When a promotion check promotes -----

  /**
   * A promotion check changes anything exactly if there is a fallback with ten results of which 95 in
   * 100 are successes, and one of these has a higher rate than the primary or the primary's last three
   * results are failures. The best of them and the primary then change places.
   */
  lemma {:induction false} PromotionIff(providers: seq<Provider>)
    requires InOrder(providers) && DistinctUrls(providers)
    ensures After(providers, PromotionCheck) != providers <==> ShouldPromote(providers)
    ensures ShouldPromote(providers) ==>
              exists i :: IsBestCandidate(providers, i) && HaveSwapped(providers, i, After(providers, PromotionCheck))
  {
    hide SuccessRate, ShouldPromote, IsBestCandidate, Best, Decision;
    DecisionIff(providers);
    if Decision(providers).Some? {
      var i := Decision(providers).value;
      BestCandidateIsFallback(providers, i);
      PromotedIsSwapped(providers, i);
      assert After(providers, PromotionCheck)[0].url != providers[0].url;
    }
  }

  // ----- Runs that promote a degraded provider -----

  lemma {:induction false} Append(providers: seq<Provider>, first: seq<Event>, second: seq<Event>)
    requires IsRun(providers, first) && IsRun(AfterAll(providers, first), second)
    ensures IsRun(providers, first + second)
    ensures AfterAll(providers, first + second) == AfterAll(AfterAll(providers, first), second)
    decreases |first|
  {
    if first == [] {
      assert first + second == second;
    } else {
      Append(After(providers, first[0]), first[1..], second);
      assert (first + second)[1..] == first[1..] + second;
    }
  }

  function Checks(i: nat, results: seq<Outcome>): seq<Event> {
    seq(|results|, k requires 0 <= k < |results| => Check(i, results[k]))
  }

  lemma {:induction false} OneMore(providers: seq<Provider>, events: seq<Event>, e: Event)
    requires IsRun(providers, events) && Enabled(AfterAll(providers, events), e)
    ensures IsRun(providers, events + [e])
    ensures AfterAll(providers, events + [e]) == After(AfterAll(providers, events), e)
  {
    hide After;
    var last := [e];
    assert last[1..] == [];
    assert AfterAll(AfterAll(providers, events), last) == AfterAll(After(AfterAll(providers, events), e), []);
    Append(providers, events, last);
  }

  lemma {:induction false} NoChecks(providers: seq<Provider>, i: nat)
    requires i < |providers|
    ensures IsRun(providers, Checks(i, []))
    ensures AfterAll(providers, Checks(i, [])) == providers[i := AfterChecks(providers[i], [])]
  {
  }

  lemma {:induction false} ChecksSnoc(i: nat, results: seq<Outcome>)
    requires results != []
    ensures var n := |results| - 1; Checks(i, results) == Checks(i, results[..n]) + [Check(i, results[n])]
  {
  }

  lemma {:induction false} ChecksRun(providers: seq<Provider>, i: nat, results: seq<Outcome>)
    requires i < |providers|
    ensures IsRun(providers, Checks(i, results))
    ensures AfterAll(providers, Checks(i, results)) == providers[i := AfterChecks(providers[i], results)]
    decreases |results|
  {
    hide AfterCheck, Checks, IsRun, AfterAll;
    if results == [] {
      NoChecks(providers, i);
    } else {
      var n := |results| - 1;
      ChecksRun(providers, i, results[..n]);
      OneMore(providers, Checks(i, results[..n]), Check(i, results[n]));
      ChecksSnoc(i, results);
    }
  }

  /** A number of successes, and then a number of failures. */
  function Outcomes(successes: nat, failures: nat): seq<Outcome> {
    seq(successes, _ => Succeeded(1.0)) + seq(failures, _ => Failed)
  }

  lemma {:induction false} OutcomesCount(successes: nat, failures: nat)
    ensures |SuccessTimes(Outcomes(successes, failures))| == successes
    ensures TrailingFailures(Outcomes(successes, failures)) == failures
    ensures !Recovers(Outcomes(successes, failures))
  {
    var all := Outcomes(successes, failures);
    if failures > 0 {
      assert all[..|all| - 1] == Outcomes(successes, failures - 1);
      OutcomesCount(successes, failures - 1);
    } else if successes > 0 {
      assert all[..|all| - 1] == Outcomes(successes - 1, 0);
      OutcomesCount(successes - 1, 0);
    }
  }

  /** With two providers, the second is promoted if it is eligible and has the better rate. */
  lemma {:induction false} SecondIsPromoted(providers: seq<Provider>)
    requires |providers| == 2 && InOrder(providers) && Eligible(providers[1]) && Beats(providers[1], providers[0])
    ensures Decision(providers) == Some(1)
  {
    hide SuccessRate, Beats;
    BestIsBest(providers);
    assert providers[1] in providers;
  }

  /** 57 successes and then 3 failures are still a rate of 0.95: a run in which a failing provider is promoted. */
  lemma {:induction false} FailingProviderIsPromoted() returns (events: seq<Event>)
    ensures IsRun(Prepared(["a", "b"]), events)
    ensures var providers := AfterAll(Prepared(["a", "b"]), events);
            && Decision(providers) == Some(1)
            && providers[1].state.Degraded? && TrailingFailures(providers[1].results) == 3
  {
    hide AfterChecks, Checks, TrailingFailures, SuccessTimes, Recovers, IsRun, AfterAll, Decision;
    NothingCounted();
    OutcomesLength(57, 3);
    var providers := Prepared(["a", "b"]);
    var results := Outcomes(57, 3);
    events := Checks(1, results);
    ChecksRun(providers, 1, results);
    DegradedAfterIff(providers[1], results);
    assert [] + results == results;
    OutcomesCount(57, 3);
    RateAtLeast(results);
    SecondIsPromoted(AfterAll(providers, events));
  }

  lemma {:induction false} RateAtLeast(results: seq<Outcome>)
    requires |results| > 0 && |SuccessTimes(results)| as real >= PROMOTION_THRESHOLD * (|results| as real)
    ensures SuccessRate(results) >= PROMOTION_THRESHOLD
  {
  }

  /** The second provider succeeds ten times while the first fails three times. */
  lemma {:induction false} GoodAndBad() returns (events: seq<Event>)
    ensures IsRun(Prepared(["a", "b"]), events)
    ensures AfterAll(Prepared(["a", "b"]), events)
            == [Provider("a", 0, Degraded, Outcomes(0, 3)), Provider("b", 1, Active, Outcomes(10, 0))]
  {
    hide AfterChecks, Checks, TrailingFailures, Recovers, Outcomes, IsRun, AfterAll;
    var start := Prepared(["a", "b"]);
    var good, bad := Outcomes(10, 0), Outcomes(0, 3);
    OutcomesCount(10, 0);
    OutcomesCount(0, 3);
    NothingCounted();
    ChecksRun(start, 1, good);
    var middle := start[1 := AfterChecks(start[1], good)];
    ChecksRun(middle, 0, bad);
    DegradedAfterIff(start[1], good);
    DegradedAfterIff(start[0], bad);
    Append(start, Checks(1, good), Checks(0, bad));
    events := Checks(1, good) + Checks(0, bad);
    assert [] + good == good && [] + bad == bad;
  }

  lemma NothingCounted()
    ensures TrailingFailures([]) == 0
  {
  }

  /** A run whose promotion leaves the old primary degraded without a counted failure. */
  lemma {:induction false} PromotionForgetsFailures() returns (events: seq<Event>)
    ensures IsRun(Prepared(["a", "b"]), events)
    ensures AfterAll(Prepared(["a", "b"]), events) == [Provider("b", 0, Active, []), Provider("a", 1, Degraded, [])]
  {
    hide TrailingFailures, Outcomes, Prepared, Best, SuccessRate;
    var before := GoodAndBad();
    var s := AfterAll(Prepared(["a", "b"]), before);
    OutcomesCount(10, 0);
    OutcomesCount(0, 3);
    OutcomesLength(10, 0);
    RateAtLeast(s[1].results);
    SecondIsPromoted(s);
    OneMore(Prepared(["a", "b"]), before, PromotionCheck);
    events := before + [PromotionCheck];
  }

  lemma OutcomesLength(successes: nat, failures: nat)
    ensures |Outcomes(successes, failures)| == successes + failures
  {
  }

  /** Ten successes later it is promoted again, still degraded. */
  lemma {:induction false} ForgottenProviderIsPromoted() returns (events: seq<Event>)
    ensures IsRun(Prepared(["a", "b"]), events)
    ensures var providers := AfterAll(Prepared(["a", "b"]), events);
            && Decision(providers) == Some(1)
            && providers[1].state.Degraded? && providers[1].results == Outcomes(10, 0)
  {
    hide AfterChecks, Checks, TrailingFailures, Recovers, Outcomes, IsRun, AfterAll, Prepared, Best, Decision;
    var before := PromotionForgetsFailures();
    var s := AfterAll(Prepared(["a", "b"]), before);
    var good := Outcomes(10, 0);
    ChecksRun(s, 1, good);
    Append(Prepared(["a", "b"]), before, Checks(1, good));
    NothingCounted();
    DegradedAfterIff(s[1], good);
    OutcomesCount(10, 0);
    OutcomesLength(10, 0);
    assert [] + good == good;
    RateAtLeast(good);
    events := before + Checks(1, good);
    SecondIsPromoted(AfterAll(Prepared(["a", "b"]), events));
  }

  /** A run after which there is a candidate, at 97 in 100, that is not promoted, because the primary has never failed. */
  lemma {:induction false} LowerRateIsNotPromoted() returns (events: seq<Event>)
    ensures IsRun(Prepared(["a", "b"]), events)
    ensures var providers := AfterAll(Prepared(["a", "b"]), events);
            && |providers| == 2 && IsCandidate(providers[1])
            && !HasHigherRate(providers[1], providers[0]) && After(providers, PromotionCheck) == providers
  {
    hide AfterChecks, Checks, TrailingFailures, Recovers, Outcomes, IsRun, AfterAll, SuccessTimes, ShouldPromote;
    var start := Prepared(["a", "b"]);
    var good, most := Outcomes(100, 0), Outcomes(97, 3);
    OutcomesCount(100, 0);
    OutcomesCount(97, 3);
    OutcomesLength(100, 0);
    OutcomesLength(97, 3);
    NothingCounted();
    ChecksRun(start, 0, good);
    var middle := start[0 := AfterChecks(start[0], good)];
    ChecksRun(middle, 1, most);
    DegradedAfterIff(start[0], good);
    DegradedAfterIff(start[1], most);
    assert [] + good == good && [] + most == most;
    Append(start, Checks(0, good), Checks(1, most));
    events := Checks(0, good) + Checks(1, most);
    var providers := AfterAll(start, events);
    PromotionIff(providers);
    NotFailing(providers);
  }

  /** Without a higher rate and with a primary that did not fail last, nobody is promoted. */
  lemma {:induction false} NotFailing(providers: seq<Provider>)
    requires |providers| == 2 && InOrder(providers) && TrailingFailures(providers[0].results) == 0
    requires !HasHigherRate(providers[1], providers[0])
    ensures !ShouldPromote(providers)
  {
    hide HasHigherRate, TrailingFailures;
    TrailingIffLastFailed(providers[0].results, 3);
  }
}
