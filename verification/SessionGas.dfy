/** The verification gas of smart sessions: a first, cold access to an action costs more than later, warm ones. */
module SessionGas {
  import opened Abi
  import opened Calldata
  import opened UserOps
  import opened Wrappers

  const FIXED_USE_MODE := 120_000
  const BATCH_DECODING := 6_000
  const SINGLE_DECODING := 3_000
  const CHECK_ACTION := 2_000

  datatype Policy =
    | Sudo | UsageLimit | SpendingLimit | UniversalLimit | Timeframe
    | SudoV2 | UsageLimitV2 | SpendingLimitV2 | UniversalLimitV2 | TimeframeV2
    | Unknown

  datatype Action = Action(target: nat, selector: Bytes, policies: seq<Policy>)

  /** What a call is matched with actions by. */
  datatype Key = Key(target: nat, selector: Bytes)

  datatype EstimateError = FailedToDecode | NothingToEstimate

  function ColdPolicy(p: Policy): nat {
    match p
    case Sudo => 1_600
    case UsageLimit => 10_000
    case SpendingLimit => 12_250
    case UniversalLimit => 20_000
    case Timeframe => 6_800
    case SudoV2 => 1_600
    case UsageLimitV2 => 9_800
    case SpendingLimitV2 => 15_200
    case UniversalLimitV2 => 20_000
    case TimeframeV2 => 6_800
    case Unknown => 20_000
  }

  function WarmPolicy(p: Policy): nat {
    match p
    case Sudo => 1_600
    case UsageLimit => 2_600
    case SpendingLimit => 5_800
    case UniversalLimit => 10_000
    case Timeframe => 2_300
    case SudoV2 => 1_600
    case UsageLimitV2 => 2_600
    case SpendingLimitV2 => 6_700
    case UniversalLimitV2 => 10_000
    case TimeframeV2 => 2_300
    case Unknown => 10_000
  }

  function PolicyGas(policies: seq<Policy>, isCold: bool): nat {
    if policies == [] then 0
    else
      var p := policies[|policies| - 1];
      PolicyGas(policies[..|policies| - 1], isCold) + if isCold then ColdPolicy(p) else WarmPolicy(p)
  }

  /** The gas of one access to an action. */
  function ActionGas(action: Action, isCold: bool): nat {
    var perCheck := if isCold then 3_500 else 1_000;
    CHECK_ACTION + perCheck + perCheck * |action.policies| + PolicyGas(action.policies, isCold)
  }

  function KeyOf(e: Execution): Key {
    Key(e.target, if |e.calldata| < 4 then e.calldata else e.calldata[..4])
  }

  function KeysOf(calls: seq<Execution>): (keys: seq<Key>)
    ensures |keys| == |calls|
    ensures forall i :: 0 <= i < |keys| ==> keys[i] == KeyOf(calls[i])
  {
    seq(|calls|, i requires 0 <= i < |calls| => KeyOf(calls[i]))
  }

  function FindAction(actions: seq<Action>, key: Key): Option<Action> {
    if actions == [] then None
    else if Key(actions[0].target, actions[0].selector) == key then Some(actions[0])
    else FindAction(actions[1..], key)
  }

  function AccessGas(actions: seq<Action>, key: Key, isCold: bool): nat {
    match FindAction(actions, key)
    case None => 0
    case Some(action) => ActionGas(action, isCold)
  }

  // ----- The estimate as a function of how often each action is called -----

  /** One cold access and warm ones after it. */
  ghost function KeyGas(actions: seq<Action>, key: Key, calls: multiset<Key>): int {
    AccessGas(actions, key, true) + (calls[key] - 1) * AccessGas(actions, key, false)
  }

  ghost function SumOver(actions: seq<Action>, keys: set<Key>, calls: multiset<Key>): int {
    if keys == {} then 0
    else
      var key :| key in keys;
      KeyGas(actions, key, calls) + SumOver(actions, keys - {key}, calls)
  }

  ghost function Distinct(calls: multiset<Key>): set<Key> {
    set key | key in calls
  }

  function Base(count: nat): nat {
    FIXED_USE_MODE + if count > 1 then BATCH_DECODING else SINGLE_DECODING
  }

  /** The base, and for each distinct action one cold access and a warm one for each further call. */
  ghost function Estimate(actions: seq<Action>, calls: multiset<Key>): int {
    Base(|calls|) + SumOver(actions, Distinct(calls), calls)
  }

  /** The sum does not depend on the order in which keys are picked. */
  lemma {:induction false} SumPicksAny(actions: seq<Action>, keys: set<Key>, calls: multiset<Key>, key: Key)
    requires key in keys
    ensures SumOver(actions, keys, calls) == KeyGas(actions, key, calls) + SumOver(actions, keys - {key}, calls)
    decreases |keys|
  {
    hide KeyGas;
    var first :| first in keys && SumOver(actions, keys, calls) ==
                 KeyGas(actions, first, calls) + SumOver(actions, keys - {first}, calls);
    if first != key {
      SumPicksAny(actions, keys - {first}, calls, key);
      SumPicksAny(actions, keys - {key}, calls, first);
      assert keys - {first} - {key} == keys - {key} - {first};
    }
  }

  lemma {:induction false} SumIgnoresOthers(actions: seq<Action>, keys: set<Key>, calls: multiset<Key>, key: Key)
    requires key !in keys
    ensures SumOver(actions, keys, calls + multiset{key}) == SumOver(actions, keys, calls)
    decreases |keys|
  {
    if keys != {} {
      var k :| k in keys;
      SumPicksAny(actions, keys, calls, k);
      SumPicksAny(actions, keys, calls + multiset{key}, k);
      SumIgnoresOthers(actions, keys - {k}, calls, key);
    }
  }

  /** One more call of an action adds a cold access if it is the first, and a warm one otherwise. */
  lemma {:induction false} OneMoreCall(actions: seq<Action>, calls: multiset<Key>, key: Key)
    ensures SumOver(actions, Distinct(calls + multiset{key}), calls + multiset{key}) ==
            SumOver(actions, Distinct(calls), calls) + AccessGas(actions, key, key !in calls)
  {
    hide AccessGas;
    var more := calls + multiset{key};
    var others := Distinct(calls) - {key};
    assert Distinct(more) - {key} == others;
    SumPicksAny(actions, Distinct(more), more, key);
    SumIgnoresOthers(actions, others, calls, key);
    if key in calls {
      SumPicksAny(actions, Distinct(calls), calls, key);
      OneMoreTime(calls[key], AccessGas(actions, key, false));
    } else {
      assert others == Distinct(calls);
    }
  }

  lemma OneMoreTime(count: nat, gas: nat)
    ensures count * gas == (count - 1) * gas + gas
  {
  }

  method EstimateCalls(calls: seq<Execution>, actions: seq<Action>) returns (r: Result<nat, EstimateError>)
    ensures calls == [] ==> r == Err(NothingToEstimate)
    ensures calls != [] ==> r.Ok? && r.value == Estimate(actions, multiset(KeysOf(calls)))
  {
    hide AccessGas, SumOver, ActionGas, FindAction, KeyOf;
    if |calls| == 0 {
      return Err(NothingToEstimate);
    }
    var isBatch := |calls| > 1;
    var verificationGasLimit: nat := FIXED_USE_MODE;
    verificationGasLimit := verificationGasLimit + if isBatch then BATCH_DECODING else SINGLE_DECODING;
    var seen: set<Key> := {};
    ghost var keys := KeysOf(calls);
    NothingCalled(actions);
    for i := 0 to |calls|
      invariant verificationGasLimit == Base(|calls|) + SumOver(actions, Distinct(multiset(keys[..i])), multiset(keys[..i]))
      invariant forall key :: key in keys[..i] && FindAction(actions, key).Some? ==> key in seen
      invariant forall key :: key in seen ==> key in keys[..i]
    {
      var key := KeyOf(calls[i]);
      assert keys[..i + 1] == keys[..i] + [key];
      OneMoreCall(actions, multiset(keys[..i]), key);
      var action := FindAction(actions, key);
      AccessGasIs(actions, key, key !in seen);
      if action.Some? {
        var isCold := key !in seen;
        var accessGas := EstimateAccess(action.value, isCold);
        verificationGasLimit := verificationGasLimit + accessGas;
        seen := seen + {key};
      } else {
        AccessGasIs(actions, key, key !in multiset(keys[..i]));
      }
    }
    assert keys[..|calls|] == keys;
    return Ok(verificationGasLimit);
  }

  lemma NothingCalled(actions: seq<Action>)
    ensures SumOver(actions, Distinct(multiset{}), multiset{}) == 0
  {
    assert Distinct(multiset{}) == {};
  }

  lemma AccessGasIs(actions: seq<Action>, key: Key, isCold: bool)
    ensures var action := FindAction(actions, key);
            AccessGas(actions, key, isCold) == if action.Some? then ActionGas(action.value, isCold) else 0
  {
  }

  method EstimateAccess(action: Action, isCold: bool) returns (gas: nat)
    ensures gas == ActionGas(action, isCold)
  {
    gas := CHECK_ACTION;
    gas := gas + if isCold then 3_500 else 1_000;
    gas := gas + (if isCold then 3_500 else 1_000) * |action.policies|;
    ghost var fixed := gas;
    for i := 0 to |action.policies|
      invariant gas == fixed + PolicyGas(action.policies[..i], isCold)
    {
      assert action.policies[..i + 1][..i] == action.policies[..i];
      gas := gas + if isCold then ColdPolicy(action.policies[i]) else WarmPolicy(action.policies[i]);
    }
    assert action.policies[..|action.policies|] == action.policies;
  }

  method GetSmartSessionUseModeVerificationGasLimit(userOpCalldata: Bytes, actions: seq<Action>)
    returns (r: Result<nat, EstimateError>)
    ensures match DecodeCalldata(userOpCalldata, false)
            case Err(_) => r == Err(FailedToDecode)
            case Ok(calls) =>
              if calls == [] then r == Err(NothingToEstimate)
              else r.Ok? && r.value == Estimate(actions, multiset(KeysOf(calls)))
  {
    hide DecodeCalldata, Estimate;
    var decoded := DecodeERC7579Calldata(userOpCalldata);
    if decoded.Err? {
      return Err(FailedToDecode);
    }
    r := EstimateCalls(decoded.value, actions);
  }

  // ----- Bounds -----

  lemma {:induction false} WarmIsCheaper(action: Action)
    ensures ActionGas(action, false) <= ActionGas(action, true)
  {
    WarmPoliciesAreCheaper(action.policies);
  }

  lemma {:induction false} WarmPoliciesAreCheaper(policies: seq<Policy>)
    ensures PolicyGas(policies, false) <= PolicyGas(policies, true)
  {
    if policies != [] {
      WarmPoliciesAreCheaper(policies[..|policies| - 1]);
    }
  }

  /** All accesses cold, or all warm. */
  function UniformGas(actions: seq<Action>, keys: seq<Key>, isCold: bool): nat {
    if keys == [] then 0
    else UniformGas(actions, keys[..|keys| - 1], isCold) + AccessGas(actions, keys[|keys| - 1], isCold)
  }

  lemma {:induction false} SumIsBetween(actions: seq<Action>, keys: seq<Key>)
    ensures UniformGas(actions, keys, false) <= SumOver(actions, Distinct(multiset(keys)), multiset(keys))
            <= UniformGas(actions, keys, true)
  {
    hide ActionGas, SumOver;
    if keys == [] {
      NothingCalled(actions);
    } else {
      var n := |keys| - 1;
      SumIsBetween(actions, keys[..n]);
      assert keys == keys[..n] + [keys[n]];
      OneMoreCall(actions, multiset(keys[..n]), keys[n]);
      var action := FindAction(actions, keys[n]);
      if action.Some? {
        WarmIsCheaper(action.value);
      }
    }
  }

  /** The estimate lies between charging every access as warm and charging every access as cold. */
  lemma EstimateIsBetween(actions: seq<Action>, calls: seq<Execution>)
    ensures Base(|calls|) + UniformGas(actions, KeysOf(calls), false)
            <= Estimate(actions, multiset(KeysOf(calls)))
            <= Base(|calls|) + UniformGas(actions, KeysOf(calls), true)
  {
    SumIsBetween(actions, KeysOf(calls));
  }

  /** The estimate is the same for the same calls in any other order. */
  lemma OrderDoesNotMatter(actions: seq<Action>, calls: seq<Execution>, shuffled: seq<Execution>)
    requires multiset(calls) == multiset(shuffled)
    ensures Estimate(actions, multiset(KeysOf(calls))) == Estimate(actions, multiset(KeysOf(shuffled)))
  {
    KeysShuffle(calls, shuffled);
  }

  lemma {:induction false} KeysShuffle(calls: seq<Execution>, shuffled: seq<Execution>)
    requires multiset(calls) == multiset(shuffled)
    ensures multiset(KeysOf(calls)) == multiset(KeysOf(shuffled))
  {
    hide KeyOf;
    if calls == [] {
      assert |multiset(shuffled)| == 0;
    } else {
      var front, last := calls[..|calls| - 1], calls[|calls| - 1];
      var before, after := WithoutOne(calls, shuffled);
      KeysShuffle(front, before + after);
      KeysAppend(front, last);
      KeysMoveToEnd(before, last, after);
    }
  }

  /** The last call stands somewhere in the shuffled list, and the rest is the front shuffled. */
  lemma WithoutOne<T>(calls: seq<T>, shuffled: seq<T>) returns (before: seq<T>, after: seq<T>)
    requires calls != [] && multiset(calls) == multiset(shuffled)
    ensures shuffled == before + [calls[|calls| - 1]] + after
    ensures multiset(calls[..|calls| - 1]) == multiset(before + after)
    ensures calls == calls[..|calls| - 1] + [calls[|calls| - 1]]
  {
    var front, last := calls[..|calls| - 1], calls[|calls| - 1];
    assert calls == front + [last];
    assert last in multiset(shuffled);
    var i :| 0 <= i < |shuffled| && shuffled[i] == last;
    before, after := shuffled[..i], shuffled[i + 1..];
    assert shuffled == before + [last] + after;
    MoveToEnd(before, last, after);
    WithoutLast(multiset(front), multiset(before + after), last);
  }

  lemma WithoutLast<T>(a: multiset<T>, b: multiset<T>, x: T)
    requires a + multiset{x} == b + multiset{x}
    ensures a == b
  {
    assert a + multiset{x} - multiset{x} == a && b + multiset{x} - multiset{x} == b;
  }

  lemma MoveToEnd<T>(before: seq<T>, x: T, after: seq<T>)
    ensures multiset(before + [x] + after) == multiset(before + after) + multiset{x}
  {
  }

  lemma KeysAppend(front: seq<Execution>, last: Execution)
    ensures KeysOf(front + [last]) == KeysOf(front) + [KeyOf(last)]
  {
  }

  lemma KeysMoveToEnd(before: seq<Execution>, e: Execution, after: seq<Execution>)
    ensures multiset(KeysOf(before + [e] + after)) == multiset(KeysOf(before + after) + [KeyOf(e)])
  {
    hide KeyOf;
    assert KeysOf(before + [e] + after) == KeysOf(before) + [KeyOf(e)] + KeysOf(after);
    assert KeysOf(before + after) == KeysOf(before) + KeysOf(after);
    MoveToEnd(KeysOf(before), KeyOf(e), KeysOf(after));
  }

  // ----- The estimate by the calls and the actions themselves -----

  /** The first four bytes agree, or both are shorter and the same. */
  predicate SameSelector(a: Bytes, b: Bytes) {
    && (|a| == |b| || (|a| >= 4 && |b| >= 4))
    && forall k :: 0 <= k < 4 && k < |a| && k < |b| ==> a[k] == b[k]
  }

  predicate SameAction(a: Execution, b: Execution) {
    a.target == b.target && SameSelector(a.calldata, b.calldata)
  }

  /** The action is for the call's target and selector. */
  predicate Matches(action: Action, call: Execution) {
    action.target == call.target && |action.selector| <= 4 && SameSelector(action.selector, call.calldata)
  }

  ghost predicate IsFirstMatch(actions: seq<Action>, call: Execution, action: Action) {
    exists i :: 0 <= i < |actions| && actions[i] == action && Matches(action, call)
                && forall j :: 0 <= j < i ==> !Matches(actions[j], call)
  }

  lemma {:induction false} SameKeyIff(a: Execution, b: Execution)
    ensures KeyOf(a) == KeyOf(b) <==> SameAction(a, b)
  {
    var x, y := KeyOf(a).selector, KeyOf(b).selector;
    assert forall k :: 0 <= k < |x| ==> x[k] == a.calldata[k];
    assert forall k :: 0 <= k < |y| ==> y[k] == b.calldata[k];
    assert SameAction(a, b) ==> x == y;
    assert x == y ==> forall k :: 0 <= k < |x| ==> a.calldata[k] == x[k] == b.calldata[k];
  }

  lemma {:induction false} MatchesIff(action: Action, call: Execution)
    ensures Key(action.target, action.selector) == KeyOf(call) <==> Matches(action, call)
  {
    if |action.selector| <= 4 {
      var like := Execution(action.target, 0, action.selector);
      SameKeyIff(like, call);
      assert action.selector[..|action.selector|] == action.selector;
      assert KeyOf(like) == Key(action.target, action.selector);
    }
  }

  lemma {:induction false} FoundIff(actions: seq<Action>, call: Execution, action: Action)
    ensures FindAction(actions, KeyOf(call)) == Some(action) <==> IsFirstMatch(actions, call, action)
  {
    hide Matches, KeyOf;
    if actions != [] {
      FoundIff(actions[1..], call, action);
      MatchesIff(actions[0], call);
      if IsFirstMatch(actions[1..], call, action) && !Matches(actions[0], call) {
        var i :| 0 <= i < |actions| - 1 && actions[1..][i] == action && Matches(action, call)
                 && forall j :: 0 <= j < i ==> !Matches(actions[1..][j], call);
        assert actions[i + 1] == action;
        assert forall j :: 0 < j < i + 1 ==> actions[j] == actions[1..][j - 1];
      }
      if IsFirstMatch(actions, call, action) && !Matches(actions[0], call) {
        var i :| 0 <= i < |actions| && actions[i] == action && Matches(action, call)
                 && forall j :: 0 <= j < i ==> !Matches(actions[j], call);
        assert actions[1..][i - 1] == action;
        assert forall j :: 0 <= j < i - 1 ==> actions[1..][j] == actions[j + 1];
      }
    }
  }

  /** An access to an action without policies, and what each policy adds. */
  lemma {:induction false} ActionGasIs(target: nat, selector: Bytes, policies: seq<Policy>, p: Policy)
    ensures ActionGas(Action(target, selector, []), true) == 5_500
    ensures ActionGas(Action(target, selector, []), false) == 3_000
    ensures ActionGas(Action(target, selector, policies + [p]), true) ==
            ActionGas(Action(target, selector, policies), true) + 3_500 + ColdPolicy(p)
    ensures ActionGas(Action(target, selector, policies + [p]), false) ==
            ActionGas(Action(target, selector, policies), false) + 1_000 + WarmPolicy(p)
  {
    assert (policies + [p])[..|policies|] == policies;
  }

  /** Some earlier call is to the same action. */
  predicate IsWarm(calls: seq<Execution>, call: Execution) {
    exists i :: 0 <= i < |calls| && SameAction(calls[i], call)
  }

  lemma {:induction false} KeySeenIff(calls: seq<Execution>, call: Execution)
    ensures KeyOf(call) in KeysOf(calls) <==> IsWarm(calls, call)
  {
    hide KeyOf, SameAction;
    forall i | 0 <= i < |calls| ensures KeyOf(calls[i]) == KeyOf(call) <==> SameAction(calls[i], call) {
      SameKeyIff(calls[i], call);
    }
    assert forall i :: 0 <= i < |calls| ==> KeysOf(calls)[i] == KeyOf(calls[i]);
  }

  /**
   * What one more call adds to a batch of calls: an access to the first action for its target and
   * selector, warm if an earlier call was to the same ones, and nothing if there is no such action.
   */
  lemma {:induction false} CallAdds(actions: seq<Action>, calls: seq<Execution>, call: Execution)
    requires |calls| >= 2
    ensures var before, after := Estimate(actions, multiset(KeysOf(calls))),
                                 Estimate(actions, multiset(KeysOf(calls + [call])));
            && (forall action :: IsFirstMatch(actions, call, action) ==>
                  after == before + ActionGas(action, !IsWarm(calls, call)))
            && ((forall action :: action in actions ==> !Matches(action, call)) ==> after == before)
  {
    hide ActionGas, IsFirstMatch, Matches, KeyOf, SumOver, IsWarm, FindAction;
    KeysAppend(calls, call);
    OneMoreCall(actions, multiset(KeysOf(calls)), KeyOf(call));
    KeySeenIff(calls, call);
    assert multiset(KeysOf(calls) + [KeyOf(call)]) == multiset(KeysOf(calls)) + multiset{KeyOf(call)};
    forall action | IsFirstMatch(actions, call, action) ensures FindAction(actions, KeyOf(call)) == Some(action) {
      FoundIff(actions, call, action);
    }
    if forall action :: action in actions ==> !Matches(action, call) {
      NothingFound(actions, call);
    }
  }

  lemma {:induction false} NothingFound(actions: seq<Action>, call: Execution)
    requires forall action :: action in actions ==> !Matches(action, call)
    ensures FindAction(actions, KeyOf(call)).None?
  {
    hide KeyOf, Matches;
    if FindAction(actions, KeyOf(call)).Some? {
      var action := FindAction(actions, KeyOf(call)).value;
      FoundIff(actions, call, action);
    }
  }

  /** A batch of nothing that is matched costs its base. */
  lemma {:induction false} BaseIs(actions: seq<Action>)
    ensures Base(1) == 123_000 && forall n :: n > 1 ==> Base(n) == 126_000
  {
  }
}
