/**
 * The nonce cache of an EOA worker, and its safety over whole runs against a chain that it
 * sees only through receipts and possibly stale answers of RPC providers.
 */
module NonceManagers {
  import opened UserOps

  // ----- The cache -----

  /** What the cache knows about one worker on one chain. */
  datatype Tracker = Tracker(unused: Option<nat>, used: Option<nat>)

  /** A nonce is taken from the cache unless there is none, or it equals the last used one. */
  function NextNonce(t: Tracker, force: bool, rpc: nat): nat {
    if force || t.unused.None? || t.unused == t.used then rpc else t.unused.value
  }

  /** Only an answer of the RPC provider is written back. */
  function Fetched(t: Tracker, force: bool, rpc: nat): Tracker {
    t.(unused := Some(NextNonce(t, force, rpc)))
  }

  function Marked(nonce: nat): Tracker {
    Tracker(Some(nonce + 1), Some(nonce))
  }

  function LowerChar(c: char): char {
    if 'A' <= c <= 'Z' then ((c as int) + 32) as char else c
  }

  /** Addresses are compared without regard to case. */
  function Lower(address: string): string {
    seq(|address|, i requires 0 <= i < |address| => LowerChar(address[i]))
  }

  /** The same letter, or a letter of the alphabet once in lower and once in upper case. */
  predicate SameLetter(a: char, b: char) {
    || a == b
    || ('A' <= a <= 'Z' && (b as int) - (a as int) == ('a' as int) - ('A' as int))
    || ('A' <= b <= 'Z' && (a as int) - (b as int) == ('a' as int) - ('A' as int))
  }

  predicate SameAddress(a: string, b: string) {
    |a| == |b| && forall i :: 0 <= i < |a| ==> SameLetter(a[i], b[i])
  }

  lemma {:induction false} LowerIff(a: string, b: string)
    ensures Lower(a) == Lower(b) <==> SameAddress(a, b)
  {
    if Lower(a) == Lower(b) {
      forall i | 0 <= i < |a| ensures SameLetter(a[i], b[i]) {
        assert Lower(a)[i] == Lower(b)[i];
      }
    }
  }

  function Entry(trackers: map<string, map<string, nat>>, chainId: string, address: string): Option<nat> {
    if chainId in trackers && Lower(address) in trackers[chainId] then Some(trackers[chainId][Lower(address)]) else None
  }

  class NonceManager {
    var unusedNonceTrackerByChain: map<string, map<string, nat>>
    var usedNonceTrackerByChain: map<string, map<string, nat>>

    constructor ()
      ensures unusedNonceTrackerByChain == map[] && usedNonceTrackerByChain == map[]
    {
      unusedNonceTrackerByChain, usedNonceTrackerByChain := map[], map[];
    }

    function Of(address: string, chainId: string): Tracker
      reads this
    {
      Tracker(Entry(unusedNonceTrackerByChain, chainId, address), Entry(usedNonceTrackerByChain, chainId, address))
    }

    /** Nothing is known anew about other workers, or about this one on other chains. */
    twostate predicate OthersUnchanged(address: string, chainId: string)
      reads this
    {
      forall a, c :: Lower(a) != Lower(address) || c != chainId ==> Of(a, c) == old(Of(a, c))
    }

    method GetUsedNonce(address: string, chainId: string) returns (nonce: Option<nat>)
      modifies this
      ensures nonce == old(Of(address, chainId)).used
      ensures forall a, c :: Of(a, c) == old(Of(a, c))
    {
      if chainId !in usedNonceTrackerByChain {
        usedNonceTrackerByChain := usedNonceTrackerByChain[chainId := map[]];
      }
      nonce := Entry(usedNonceTrackerByChain, chainId, address);
    }

    method GetUnusedNonce(address: string, chainId: string) returns (nonce: Option<nat>)
      modifies this
      ensures nonce == old(Of(address, chainId)).unused
      ensures forall a, c :: Of(a, c) == old(Of(a, c))
    {
      if chainId !in unusedNonceTrackerByChain {
        unusedNonceTrackerByChain := unusedNonceTrackerByChain[chainId := map[]];
      }
      nonce := Entry(unusedNonceTrackerByChain, chainId, address);
    }

    method SetUsedNonce(address: string, chainId: string, nonce: nat)
      modifies this
      ensures Of(address, chainId) == old(Of(address, chainId)).(used := Some(nonce))
      ensures OthersUnchanged(address, chainId)
    {
      if chainId !in usedNonceTrackerByChain {
        usedNonceTrackerByChain := usedNonceTrackerByChain[chainId := map[]];
      }
      var tracker := usedNonceTrackerByChain[chainId];
      usedNonceTrackerByChain := usedNonceTrackerByChain[chainId := tracker[Lower(address) := nonce]];
    }

    method SetUnusedNonce(address: string, chainId: string, nonce: nat)
      modifies this
      ensures Of(address, chainId) == old(Of(address, chainId)).(unused := Some(nonce))
      ensures OthersUnchanged(address, chainId)
    {
      if chainId !in unusedNonceTrackerByChain {
        unusedNonceTrackerByChain := unusedNonceTrackerByChain[chainId := map[]];
      }
      var tracker := unusedNonceTrackerByChain[chainId];
      unusedNonceTrackerByChain := unusedNonceTrackerByChain[chainId := tracker[Lower(address) := nonce]];
    }

    method GetNonceFromRpc(address: string, chainId: string, rpc: nat) returns (nonce: nat)
      modifies this
      ensures nonce == rpc && Of(address, chainId) == old(Of(address, chainId)).(unused := Some(rpc))
      ensures OthersUnchanged(address, chainId)
    {
      nonce := rpc;
      SetUnusedNonce(address, chainId, nonce);
    }

    method GetNonce(address: string, chainId: string, forceFetch: bool, rpc: nat) returns (nonce: nat)
      modifies this
      ensures nonce == NextNonce(old(Of(address, chainId)), forceFetch, rpc)
      ensures Of(address, chainId) == Fetched(old(Of(address, chainId)), forceFetch, rpc)
      ensures OthersUnchanged(address, chainId)
    {
      if forceFetch {
        nonce := GetNonceFromRpc(address, chainId, rpc);
        return;
      }
      var unusedNonce := GetUnusedNonce(address, chainId);
      if unusedNonce.Some? {
        nonce := unusedNonce.value;
        var usedNonce := GetUsedNonce(address, chainId);
        if unusedNonce == usedNonce {
          nonce := GetNonceFromRpc(address, chainId, rpc);
        }
      } else {
        nonce := GetNonceFromRpc(address, chainId, rpc);
      }
    }

    method MarkNonceAsUsed(address: string, chainId: string, nonce: nat)
      modifies this
      ensures Of(address, chainId) == Marked(nonce)
      ensures OthersUnchanged(address, chainId)
    {
      SetUsedNonce(address, chainId, nonce);
      SetUnusedNonce(address, chainId, nonce + 1);
    }
  }

  // ----- A worker and its chain -----

  /** A worker has no transaction, has a nonce for its next one, or waits for one that it has sent. */
  datatype Phase = Idle | Ready(nonce: nat) | InFlight(nonce: nat, mined: bool, marked: bool)

  /** `count` is the chain's next nonce; `confirmed` are the nonces marked so far, one per transaction. */
  datatype System = System(tracker: Tracker, count: nat, phase: Phase, confirmed: seq<nat>)

  const START := System(Tracker(None, None), 0, Idle, [])

  datatype Step =
    | Begin(rpc: nat)
    | Send
    | Mine
    | Others(count: nat)
    | SeeReceipt
    | TimeOut(rpc: nat)
    | Adjust(force: bool, rpc: nat)
    | Resend
    | GiveUp

  /**
   * RPC answers may be stale but never too high. A node refuses a nonce that is too low. A
   * transaction is mined when its nonce is the chain's next; other transactions of the same
   * account, also those given up earlier, may be mined at any time. After an error without a
   * remedy the same nonce is tried again.
   */
  predicate Enabled(s: System, step: Step) {
    match step
    case Begin(rpc) => s.phase.Idle? && rpc <= s.count
    case Send => s.phase.Ready? && s.count <= s.phase.nonce
    case Mine => s.phase.InFlight? && !s.phase.mined && s.phase.nonce == s.count
    case Others(count) => s.count <= count
    case SeeReceipt => s.phase.InFlight? && s.phase.mined
    case TimeOut(rpc) => s.phase.InFlight? && rpc <= s.count
    case Adjust(_, rpc) => !s.phase.Idle? && rpc <= s.count
    case Resend => s.phase.Ready? || (s.phase.InFlight? && !s.phase.marked)
    case GiveUp => true
  }

  /** The merge keeps the earlier nonce if the new one is 0. */
  function Merged(nonce: nat, earlier: nat): nat {
    if nonce != 0 then nonce else earlier
  }

  function Apply(s: System, step: Step): System
    requires Enabled(s, step)
  {
    match step
    case Begin(rpc) =>
      s.(tracker := Fetched(s.tracker, false, rpc), phase := Ready(NextNonce(s.tracker, false, rpc)))
    case Send => s.(phase := InFlight(s.phase.nonce, false, false))
    case Mine => s.(count := s.count + 1, phase := s.phase.(mined := true))
    case Others(count) => s.(count := count)
    case SeeReceipt =>
      s.(tracker := Marked(s.phase.nonce), phase := s.phase.(marked := true),
         confirmed := if s.phase.marked then s.confirmed else s.confirmed + [s.phase.nonce])
    case TimeOut(rpc) => s.(tracker := Fetched(s.tracker, true, rpc), phase := Idle)
    case Adjust(force, rpc) =>
      s.(tracker := Fetched(s.tracker, force, rpc),
         phase := Ready(Merged(NextNonce(s.tracker, force, rpc), s.phase.nonce)))
    case Resend => s.(phase := Ready(s.phase.nonce))
    case GiveUp => s.(phase := Idle)
  }

  predicate IsRun(s: System, steps: seq<Step>)
    decreases |steps|
  {
    steps == [] || (Enabled(s, steps[0]) && IsRun(Apply(s, steps[0]), steps[1..]))
  }

  function After(s: System, steps: seq<Step>): System
    requires IsRun(s, steps)
    decreases |steps|
  {
    if steps == [] then s else After(Apply(s, steps[0]), steps[1..])
  }

  ghost predicate StrictlyIncreasing(nonces: seq<nat>) {
    forall i, j :: 0 <= i < j < |nonces| ==> nonces[i] < nonces[j]
  }

  /** The cache is never ahead of the chain, and what the worker holds is not either. */
  ghost predicate Safe(s: System) {
    && (s.tracker.unused.Some? ==> s.tracker.unused.value <= s.count)
    && (s.tracker.used.Some? ==> s.tracker.used.value < s.count)
    && (!s.phase.Idle? ==> s.phase.nonce <= s.count)
  }

  /** Confirmed nonces are below the chain's; an unmarked transaction in flight is above all of them. */
  ghost predicate Ordered(s: System) {
    && StrictlyIncreasing(s.confirmed)
    && (forall n :: n in s.confirmed ==> n < s.count)
    && (s.phase.InFlight? && s.phase.mined ==> s.phase.nonce < s.count)
    && (s.phase.InFlight? && !s.phase.marked ==> forall n :: n in s.confirmed ==> n < s.phase.nonce)
    && (s.tracker.used.None? <==> s.confirmed == [])
    && (s.confirmed != [] ==> s.tracker.used == Some(s.confirmed[|s.confirmed| - 1]))
    && (s.phase.InFlight? && s.phase.marked ==> s.tracker.used == Some(s.phase.nonce))
  }

  lemma StepIsSafe(s: System, step: Step)
    requires Safe(s) && Ordered(s) && Enabled(s, step)
    ensures Safe(Apply(s, step)) && Ordered(Apply(s, step))
  {
    assert forall i :: 0 <= i < |s.confirmed| ==> s.confirmed[i] in s.confirmed;
  }

  lemma {:induction false} RunIsSafe(s: System, steps: seq<Step>)
    requires Safe(s) && Ordered(s) && IsRun(s, steps)
    ensures Safe(After(s, steps)) && Ordered(After(s, steps))
    decreases |steps|
  {
    if steps != [] {
      StepIsSafe(s, steps[0]);
      RunIsSafe(Apply(s, steps[0]), steps[1..]);
    }
  }

  /** In every run, a transaction that a node accepts carries exactly the chain's next nonce. */
  lemma NoFutureNonce(steps: seq<Step>)
    requires IsRun(START, steps) && Enabled(After(START, steps), Send)
    ensures After(START, steps).phase.nonce == After(START, steps).count
  {
    RunIsSafe(START, steps);
  }

  /** In every run, the cache is not ahead of the chain, and distinct mined transactions are marked with increasing nonces. */
  lemma CacheFollowsChain(steps: seq<Step>)
    requires IsRun(START, steps)
    ensures Safe(After(START, steps)) && StrictlyIncreasing(After(START, steps).confirmed)
  {
    RunIsSafe(START, steps);
  }

  // ----- Used nonces -----

  /** The step writes the provider's answer into the cache. */
  predicate Consults(s: System, step: Step) {
    match step
    case Begin(_) => s.tracker.unused.None? || s.tracker.unused == s.tracker.used
    case TimeOut(_) => true
    case Adjust(force, _) => force || s.tracker.unused.None? || s.tracker.unused == s.tracker.used
    case _ => false
  }

  /** Every answer written into the cache is above the nonce marked last. */
  predicate AnswersAreFresh(s: System, steps: seq<Step>)
    requires IsRun(s, steps)
    decreases |steps|
  {
    steps == []
    || (&& (Consults(s, steps[0]) && s.tracker.used.Some? ==> s.tracker.used.value < steps[0].rpc)
        && AnswersAreFresh(Apply(s, steps[0]), steps[1..]))
  }

  /** The last answer since the last marking, after one more step. */
  function NextAnswer(s: System, step: Step, answer: Option<nat>): Option<nat> {
    if step.SeeReceipt? then None else if Consults(s, step) then Some(step.rpc) else answer
  }

  /** The answer written into the cache last, if that was after the last marking. */
  function LastAnswer(s: System, steps: seq<Step>, answer: Option<nat>): Option<nat>
    requires IsRun(s, steps)
    decreases |steps|
  {
    if steps == [] then answer
    else
      LastAnswer(Apply(s, steps[0]), steps[1..], NextAnswer(s, steps[0], answer))
  }

  /** The next transaction may get a nonce that is used already. */
  ghost predicate MayReuse(s: System) {
    s.tracker.used.Some? && exists rpc: nat :: rpc <= s.count && NextNonce(s.tracker, false, rpc) <= s.tracker.used.value
  }

  /** The worker holds a used nonce for its next transaction. */
  predicate HoldsUsed(s: System) {
    s.phase.Ready? && s.tracker.used.Some? && s.phase.nonce <= s.tracker.used.value
  }

  /** No state of the run holds a used nonce or may hand one out. */
  ghost predicate NeverReuses(s: System, steps: seq<Step>)
    requires IsRun(s, steps)
    decreases |steps|
  {
    !MayReuse(s) && !HoldsUsed(s) && (steps == [] || NeverReuses(Apply(s, steps[0]), steps[1..]))
  }

  /** Where a used nonce comes from: the cached one is not above it. */
  lemma {:induction false} MayReuseIff(s: System)
    requires s.tracker.used.Some? ==> s.tracker.unused.Some?
    ensures MayReuse(s) <==> s.tracker.used.Some? && s.tracker.unused.value <= s.tracker.used.value
  {
    if s.tracker.used.Some? {
      var reused := NextNonce(s.tracker, false, 0);
      assert reused == if s.tracker.unused == s.tracker.used then 0 else s.tracker.unused.value;
    }
  }

  /** After a marking the cached nonce is one more than the used one, and after an answer it is the answer. */
  ghost predicate CacheIs(t: Tracker, answer: Option<nat>) {
    t.used.Some? ==> t.unused == Some(if answer.Some? then answer.value else t.used.value + 1)
  }

  lemma {:induction false} CacheIsLastAnswer(s: System, steps: seq<Step>, answer: Option<nat>)
    requires IsRun(s, steps) && CacheIs(s.tracker, answer)
    ensures CacheIs(After(s, steps).tracker, LastAnswer(s, steps, answer))
    decreases |steps|
  {
    if steps != [] {
      CacheIsLastAnswer(Apply(s, steps[0]), steps[1..], NextAnswer(s, steps[0], answer));
    }
  }

  /** After any run, the next nonce may be a used one exactly if the last answer since the last marking was not above it. */
  lemma {:induction false} MayReuseIffLastAnswerStale(steps: seq<Step>)
    requires IsRun(START, steps)
    ensures var s := After(START, steps);
            var answer := LastAnswer(START, steps, None);
            MayReuse(s) <==> s.tracker.used.Some? && answer.Some? && answer.value <= s.tracker.used.value
  {
    CacheIsLastAnswer(START, steps, None);
    MayReuseIff(After(START, steps));
  }

  lemma {:induction false} StepReusesIff(s: System, step: Step)
    requires Safe(s) && Ordered(s) && !MayReuse(s) && !HoldsUsed(s) && Enabled(s, step)
    requires s.tracker.used.Some? ==> s.tracker.unused.Some?
    ensures var s' := Apply(s, step);
            && (s'.tracker.used.Some? ==> s'.tracker.unused.Some?)
            && (Consults(s, step) && s.tracker.used.Some? ==>
                  (s.tracker.used.value < step.rpc <==> !MayReuse(s') && !HoldsUsed(s')))
            && (!(Consults(s, step) && s.tracker.used.Some?) ==> !MayReuse(s') && !HoldsUsed(s'))
  {
    hide MayReuse, StrictlyIncreasing;
    MayReuseIff(s);
    MayReuseIff(Apply(s, step));
    if step.Resend? && s.confirmed != [] {
      assert s.confirmed[|s.confirmed| - 1] in s.confirmed;
    }
  }

  lemma {:induction false} FreshIffNeverReuses(s: System, steps: seq<Step>)
    requires Safe(s) && Ordered(s) && IsRun(s, steps) && !MayReuse(s) && !HoldsUsed(s)
    requires s.tracker.used.Some? ==> s.tracker.unused.Some?
    ensures AnswersAreFresh(s, steps) <==> NeverReuses(s, steps)
    decreases |steps|
  {
    hide Safe, Ordered, MayReuse, HoldsUsed, Consults;
    if steps != [] {
      var s' := Apply(s, steps[0]);
      StepIsSafe(s, steps[0]);
      StepReusesIff(s, steps[0]);
      if !MayReuse(s') && !HoldsUsed(s') {
        FreshIffNeverReuses(s', steps[1..]);
      }
    }
  }

  /**
   * A run never holds a used nonce, and never comes to where it could be handed one, exactly if
   * every answer of a provider that it takes over is above the nonce marked last.
   */
  lemma {:induction false} UsedNonceIsReusedIff(steps: seq<Step>)
    requires IsRun(START, steps)
    ensures NeverReuses(START, steps) <==> AnswersAreFresh(START, steps)
  {
    FreshIffNeverReuses(START, steps);
  }

  /** Some state of the run holds a used nonce. */
  predicate EverHoldsUsed(s: System, steps: seq<Step>)
    requires IsRun(s, steps)
    decreases |steps|
  {
    HoldsUsed(s) || (steps != [] && EverHoldsUsed(Apply(s, steps[0]), steps[1..]))
  }

  /**
   * The step hands out a nonce when the last answer since the last marking is not above the used one.
   * An adjustment to nonce 0 keeps the earlier nonce, which is a used one only if it has been marked.
   */
  predicate HandsOutStale(s: System, step: Step, answer: Option<nat>) {
    && s.tracker.used.Some? && answer.Some? && answer.value <= s.tracker.used.value
    && (step.Begin? || (step.Adjust? && (answer.value != 0 || (s.phase.InFlight? && s.phase.marked))))
  }

  predicate EverHandsOutStale(s: System, steps: seq<Step>, answer: Option<nat>)
    requires IsRun(s, steps)
    decreases |steps|
  {
    steps != [] &&
    var answer' := NextAnswer(s, steps[0], answer);
    HandsOutStale(s, steps[0], answer') || EverHandsOutStale(Apply(s, steps[0]), steps[1..], answer')
  }

  lemma {:induction false} StepHoldsUsedIff(s: System, step: Step, answer: Option<nat>)
    requires Safe(s) && Ordered(s) && CacheIs(s.tracker, answer) && !HoldsUsed(s) && Enabled(s, step)
    ensures CacheIs(Apply(s, step).tracker, NextAnswer(s, step, answer))
    ensures HoldsUsed(Apply(s, step)) <==> HandsOutStale(s, step, NextAnswer(s, step, answer))
  {
    hide StrictlyIncreasing;
    if s.confirmed != [] {
      assert s.confirmed[|s.confirmed| - 1] in s.confirmed;
    }
  }

  lemma {:induction false} HoldsUsedIff(s: System, steps: seq<Step>, answer: Option<nat>)
    requires Safe(s) && Ordered(s) && CacheIs(s.tracker, answer) && !HoldsUsed(s) && IsRun(s, steps)
    ensures EverHoldsUsed(s, steps) <==> EverHandsOutStale(s, steps, answer)
    decreases |steps|
  {
    hide Safe, Ordered, CacheIs, HoldsUsed, HandsOutStale, NextAnswer;
    if steps != [] {
      StepIsSafe(s, steps[0]);
      StepHoldsUsedIff(s, steps[0], answer);
      if !HoldsUsed(Apply(s, steps[0])) {
        HoldsUsedIff(Apply(s, steps[0]), steps[1..], NextAnswer(s, steps[0], answer));
      }
    }
  }

  /** A run comes to hold a used nonce exactly if some step of it hands out on a stale answer. */
  lemma {:induction false} UsedNonceIsHeldIff(steps: seq<Step>)
    requires IsRun(START, steps)
    ensures EverHoldsUsed(START, steps) <==> EverHandsOutStale(START, steps, None)
  {
    HoldsUsedIff(START, steps, None);
  }

  /** From wherever a run got a worker stuck, one truthful forced fetch makes the next transaction the chain's next. */
  lemma {:induction false} ForcedFetchRecovers(steps: seq<Step>)
    requires IsRun(START, steps) && !After(START, steps).phase.Idle?
    ensures var s := After(START, steps);
            && Enabled(s, Adjust(true, s.count))
            && var s' := Apply(s, Adjust(true, s.count));
               Enabled(s', Send) && s'.phase.nonce == s.count && !HoldsUsed(s') && !MayReuse(s')
  {
    RunIsSafe(START, steps);
    MayReuseIff(Apply(After(START, steps), Adjust(true, After(START, steps).count)));
  }

  /** A run in which a provider that lags behind makes the worker use a mined nonce again. */
  lemma LaggingProviderReusesNonce() returns (steps: seq<Step>)
    ensures IsRun(START, steps)
    ensures var s := After(START, steps);
            HoldsUsed(s) && s.phase.nonce == 0 && s.tracker.used == Some(1) && !Enabled(s, Send)
  {
    var s1 := Apply(START, Begin(0));
    var s2 := Apply(s1, Send);
    var s3 := Apply(s2, Mine);
    var s4 := Apply(s3, SeeReceipt);
    var s5 := Apply(s4, GiveUp);
    var s6 := Apply(s5, Begin(0));
    var s7 := Apply(s6, Send);
    var s8 := Apply(s7, Mine);
    var s9 := Apply(s8, SeeReceipt);
    var s10 := Apply(s9, TimeOut(0));
    steps := [Begin(0)];
    steps := Prepend(s9, TimeOut(0), steps);
    steps := Prepend(s8, SeeReceipt, steps);
    steps := Prepend(s7, Mine, steps);
    steps := Prepend(s6, Send, steps);
    steps := Prepend(s5, Begin(0), steps);
    steps := Prepend(s4, GiveUp, steps);
    steps := Prepend(s3, SeeReceipt, steps);
    steps := Prepend(s2, Mine, steps);
    steps := Prepend(s1, Send, steps);
    steps := Prepend(START, Begin(0), steps);
  }

  lemma Prepend(s: System, step: Step, steps: seq<Step>) returns (longer: seq<Step>)
    requires Enabled(s, step) && IsRun(Apply(s, step), steps)
    ensures IsRun(s, longer) && After(s, longer) == After(Apply(s, step), steps)
  {
    longer := [step] + steps;
    assert longer[1..] == steps;
  }
}
