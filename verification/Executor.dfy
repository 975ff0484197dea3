/**
 * The executor's processing of one job. Each attempt is proved to be a sequence of steps
 * of the step relation, so what holds of every run of the three actors holds of it.
 */
module Executor {
  import opened UserOps
  import opened Records
  import opened Pipeline
  import opened ChainStores
  import opened Attempts

  predicate IsRetriable(e: ErrorType) {
    !e.EXECUTION_FAILED? && !e.UNRECOGNIZED_ERROR? && !e.BLOCK_GAS_LIMIT_EXCEEDS_ERROR?
  }

  // ----- The steps of one attempt -----

  function AttemptSteps(job: ExecJob, id: nat, e: Attempt): seq<Step> {
    if job.previousTxHash.Some? && e.previousReceipt.Some? then
      if e.previousReceipt.value.reverted then SplitSteps(job.meeUserOps, id, e.valid, false)
      else [ExecFinish(id, job.previousTxHash.value, e.previousReceipt)]
    else (if job.previousTxHash.Some? then [ExecNoteTx(id, None)] else []) + FreshSteps(job.meeUserOps, id, e)
  }

  /** An attempt with no transaction of an earlier one to look at. */
  function FreshSteps(ops: seq<MeeUserOp>, id: nat, e: Attempt): seq<Step> {
    var remaining := Keep(ops, Unexpired(ops, e.now));
    [ExecDropExpired(id, e.now)]
    + if remaining == [] && ops != [] then [ExecFinish(id, 0, None)] else SubmissionSteps(remaining, id, e)
  }

  /** Submitting the unexpired operations. */
  function SubmissionSteps(ops: seq<MeeUserOp>, id: nat, e: Attempt): seq<Step> {
    if !e.feesAndNonceFetched then [ExecThrow(id, false)]
    else EarlySteps(id, e.first.early) + OutcomeSteps(ops, id, e)
  }

  /** What follows the first submission. */
  function OutcomeSteps(ops: seq<MeeUserOp>, id: nat, e: Attempt): seq<Step> {
    match e.first.submission
    case Included(txHash, receipt) => FinalSteps(id, txHash, receipt)
    case Rejected(error, sent) => RejectionSteps(ops, id, error, sent, e)
  }

  /** A timed-out transaction is remembered for the next attempt; other retriable errors are retried at once. */
  function RejectionSteps(ops: seq<MeeUserOp>, id: nat, error: ErrorType, sent: Option<nat>, e: Attempt): seq<Step> {
    if !IsRetriable(error) then FatalSteps(ops, id, error, e.valid)
    else if error.TRANSACTION_RECEIPT_TIMEOUT_ERROR? && sent.Some? then [ExecNoteTx(id, sent), ExecThrow(id, false)]
    else if !e.feesAndNonceRefreshed then [ExecThrow(id, false)]
    else RetrySteps(ops, id, e)
  }

  /** One immediate retry after a retriable error; a hash it obtains before timing out is not remembered. */
  function RetrySteps(ops: seq<MeeUserOp>, id: nat, e: Attempt): seq<Step> {
    EarlySteps(id, e.retry.early) +
    match e.retry.submission
    case Included(txHash, receipt) => FinalSteps(id, txHash, receipt)
    case Rejected(error, _) =>
      if !IsRetriable(error) then FatalSteps(ops, id, error, e.valid) else [ExecThrow(id, false)]
  }

  function EarlySteps(id: nat, early: Option<(nat, Receipt)>): seq<Step> {
    if early.Some? then [ExecQuickStatus(id, early.value.0, early.value.1)] else []
  }

  /** A block whose transaction hash is unknown fails for good. */
  function FinalSteps(id: nat, txHash: Option<nat>, receipt: Option<Receipt>): seq<Step> {
    if txHash.None? then [ExecThrow(id, true)] else [ExecFinish(id, txHash.value, receipt)]
  }

  /** A block too big for the chain is cut up, unless it is a single operation, which is retried by the queue. */
  function FatalSteps(ops: seq<MeeUserOp>, id: nat, error: ErrorType, valid: set<nat>): seq<Step> {
    if error.BLOCK_GAS_LIMIT_EXCEEDS_ERROR? && |ops| == 1 then [ExecThrow(id, false)]
    else SplitSteps(ops, id, valid, error.BLOCK_GAS_LIMIT_EXCEEDS_ERROR?)
  }

  function SplitSteps(ops: seq<MeeUserOp>, id: nat, valid: set<nat>, separate: bool): seq<Step> {
    HandOverSteps(ops, id, valid, separate) + [ExecSplitEnd(id)]
  }

  /** Separate blocks are added one by one, and everything else can happen between two of them. */
  function HandOverSteps(ops: seq<MeeUserOp>, id: nat, valid: set<nat>, separate: bool): seq<Step> {
    if separate then [ExecSplit(id, {})] + SingleSteps(Keep(ops, valid), id) else [ExecSplit(id, valid)]
  }

  function SingleSteps(ops: seq<MeeUserOp>, id: nat): seq<Step> {
    seq(|ops|, i requires 0 <= i < |ops| => ExecSplit(id, {ops[i].meeUserOpHash}))
  }

  // ----- What is kept -----

  lemma {:induction false} KeepTwice(ops: seq<MeeUserOp>, a: set<nat>, b: set<nat>)
    ensures Keep(Keep(ops, a), b) == Keep(ops, a * b)
  {
    if ops != [] {
      KeepTwice(ops[1..], a, b);
      var rest := Keep(ops[1..], a);
      assert ([ops[0]] + rest)[1..] == rest;
    }
  }

  /** Only the hashes in the list matter. */
  lemma {:induction false} KeepOfHashes(ops: seq<MeeUserOp>, a: set<nat>, b: set<nat>)
    requires forall op :: op in ops ==> (op.meeUserOpHash in a <==> op.meeUserOpHash in b)
    ensures Keep(ops, a) == Keep(ops, b)
  {
    if ops != [] {
      assert ops[0] in ops;
      KeepOfHashes(ops[1..], a, b);
    }
  }

  lemma {:induction false} KeepNone(ops: seq<MeeUserOp>, a: set<nat>)
    requires forall op :: op in ops ==> op.meeUserOpHash !in a
    ensures Keep(ops, a) == []
  {
    if ops != [] {
      assert ops[0] in ops;
      KeepNone(ops[1..], a);
    }
  }

  lemma {:induction false} KeepAll(ops: seq<MeeUserOp>, a: set<nat>)
    requires forall op :: op in ops ==> op.meeUserOpHash in a
    ensures Keep(ops, a) == ops
  {
    if ops != [] {
      assert ops[0] in ops;
      KeepAll(ops[1..], a);
    }
  }

  lemma {:induction false} KeepOne(ops: seq<MeeUserOp>, i: nat)
    requires DistinctHashes(ops) && i < |ops|
    ensures Keep(ops, {ops[i].meeUserOpHash}) == [ops[i]]
  {
    var h := ops[i].meeUserOpHash;
    assert forall j :: 0 <= j < |ops| - 1 ==> ops[1..][j] == ops[j + 1];
    if i == 0 {
      forall op | op in ops[1..] ensures op.meeUserOpHash != h {
        var j :| 0 <= j < |ops| - 1 && ops[1..][j] == op;
      }
      KeepNone(ops[1..], {h});
    } else {
      KeepOne(ops[1..], i - 1);
    }
  }

  /** What is left after the first i of the valid operations have been handed over. */
  function Rest(ops: seq<MeeUserOp>, valid: set<nat>, i: nat): seq<MeeUserOp>
    requires i <= |Keep(ops, valid)|
  {
    Keep(ops, Hashes(ops) - Hashes(Keep(ops, valid)[..i]))
  }

  lemma {:induction false} NotYetHandedOver(ops: seq<MeeUserOp>, i: nat)
    requires DistinctHashes(ops) && i < |ops|
    ensures ops[i].meeUserOpHash !in Hashes(ops[..i])
    ensures Hashes(ops[..i + 1]) == Hashes(ops[..i]) + {ops[i].meeUserOpHash}
  {
    forall op | op in ops[..i] ensures op.meeUserOpHash != ops[i].meeUserOpHash {
      var j := IndexOf(ops[..i], op);
    }
    assert ops[..i + 1] == ops[..i] + [ops[i]];
  }

  lemma {:induction false} NextSingle(ops: seq<MeeUserOp>, valid: set<nat>, i: nat)
    requires DistinctHashes(ops) && i < |Keep(ops, valid)|
    ensures Keep(Rest(ops, valid, i), {Keep(ops, valid)[i].meeUserOpHash}) == [Keep(ops, valid)[i]]
  {
    hide Keep, DistinctHashes;
    var kept := Keep(ops, valid);
    var h := kept[i].meeUserOpHash;
    NotYetHandedOver(kept, i);
    assert kept[i] in kept;
    var k := IndexOf(ops, kept[i]);
    var left := Hashes(ops) - Hashes(kept[..i]);
    KeepTwice(ops, left, {h});
    assert left * {h} == {h};
    KeepOne(ops, k);
  }

  lemma {:induction false} RestAfterSingle(ops: seq<MeeUserOp>, valid: set<nat>, i: nat)
    requires DistinctHashes(ops) && i < |Keep(ops, valid)|
    ensures var rest := Rest(ops, valid, i);
            Keep(rest, Hashes(rest) - {Keep(ops, valid)[i].meeUserOpHash}) == Rest(ops, valid, i + 1)
  {
    hide Keep, DistinctHashes;
    var kept := Keep(ops, valid);
    var h := kept[i].meeUserOpHash;
    NotYetHandedOver(kept, i);
    var left := Hashes(ops) - Hashes(kept[..i]);
    var rest := Keep(ops, left);
    KeepTwice(ops, left, Hashes(rest) - {h});
    KeepOfHashes(ops, left * (Hashes(rest) - {h}), Hashes(ops) - Hashes(kept[..i + 1]));
  }

  lemma {:induction false} NothingHandedOver(ops: seq<MeeUserOp>, valid: set<nat>)
    ensures Keep(ops, {}) == [] && Keep(ops, Hashes(ops) - {}) == ops && Rest(ops, valid, 0) == ops
  {
    KeepNone(ops, {});
    KeepAll(ops, Hashes(ops) - {});
    assert Hashes(Keep(ops, valid)[..0]) == {};
  }

  lemma {:induction false} AllHandedOver(ops: seq<MeeUserOp>, valid: set<nat>)
    ensures Rest(ops, valid, |Keep(ops, valid)|) == Keep(ops, Hashes(ops) - valid)
  {
    var kept := Keep(ops, valid);
    assert kept[..|kept|] == kept;
    KeepOfHashes(ops, Hashes(ops) - Hashes(kept), Hashes(ops) - valid);
  }

  lemma SingleSnoc(ops: seq<MeeUserOp>, id: nat, i: nat, steps: seq<Step>)
    requires i < |ops|
    ensures steps + SingleSteps(ops[..i], id) + [ExecSplit(id, {ops[i].meeUserOpHash})]
         == steps + SingleSteps(ops[..i + 1], id)
  {
  }

  lemma IndexOf(ops: seq<MeeUserOp>, op: MeeUserOp) returns (k: nat)
    requires op in ops
    ensures k < |ops| && ops[k] == op
  {
    k :| 0 <= k < |ops| && ops[k] == op;
  }

  lemma {:induction false} KeepSnoc(ops: seq<MeeUserOp>, op: MeeUserOp, hashes: set<nat>)
    ensures Keep(ops + [op], hashes) == Keep(ops, hashes) + if op.meeUserOpHash in hashes then [op] else []
  {
    if ops == [] {
      assert [op][1..] == [];
    } else {
      assert (ops + [op])[1..] == ops[1..] + [op];
      KeepSnoc(ops[1..], op, hashes);
    }
  }

  /** With distinct hashes, an operation's hash is among the unexpired ones exactly if it is not expired. */
  lemma UnexpiredIsOwnBound(ops: seq<MeeUserOp>, i: nat, now: int)
    requires DistinctHashes(ops) && i < |ops|
    ensures ops[i].meeUserOpHash in Unexpired(ops, now) <==> now <= ops[i].upperBoundTimestamp
  {
    if ops[i].meeUserOpHash in Unexpired(ops, now) {
      var op :| op in ops && now <= op.upperBoundTimestamp && op.meeUserOpHash == ops[i].meeUserOpHash;
      var j :| 0 <= j < |ops| && ops[j] == op;
    }
  }

  /** One more operation goes to one of the two lists, by its own bound. */
  lemma SortByBound(ops: seq<MeeUserOp>, i: nat, now: int)
    requires DistinctHashes(ops) && i < |ops|
    ensures Keep(ops[..i + 1], Unexpired(ops, now)) ==
            Keep(ops[..i], Unexpired(ops, now)) + if now <= ops[i].upperBoundTimestamp then [ops[i]] else []
    ensures Keep(ops[..i + 1], Hashes(ops) - Unexpired(ops, now)) ==
            Keep(ops[..i], Hashes(ops) - Unexpired(ops, now)) + if now <= ops[i].upperBoundTimestamp then [] else [ops[i]]
  {
    assert ops[..i + 1] == ops[..i] + [ops[i]];
    KeepSnoc(ops[..i], ops[i], Unexpired(ops, now));
    KeepSnoc(ops[..i], ops[i], Hashes(ops) - Unexpired(ops, now));
    UnexpiredIsOwnBound(ops, i, now);
  }

  /** After the first i of the valid operations have gone to jobs of their own. */
  function PartlyHandedOver(s: State, id: nat, valid: set<nat>, i: nat): State
    requires id in s.executor && i <= |Keep(s.executor[id].meeUserOps, valid)|
  {
    var ops := s.executor[id].meeUserOps;
    AddJobs(s, Singles(Keep(ops, valid)[..i])).(splitting := s.splitting[id := Rest(ops, valid, i)])
  }

  lemma {:induction false} SplitBegun(s: State, id: nat, valid: set<nat>)
    requires id in s.executor && id !in s.splitting
    ensures SplitOff(s, id, {}) == PartlyHandedOver(s, id, valid, 0)
  {
    var ops := s.executor[id].meeUserOps;
    NothingHandedOver(ops, valid);
    AddNoJobs(s);
    assert Singles(Keep(ops, valid)[..0]) == [];
  }

  lemma {:induction false} OneMoreHandedOver(s: State, id: nat, valid: set<nat>, i: nat)
    requires id in s.executor && id < s.nextJob && DistinctHashes(s.executor[id].meeUserOps)
    requires i < |Keep(s.executor[id].meeUserOps, valid)|
    ensures id in PartlyHandedOver(s, id, valid, i).executor
    ensures SplitOff(PartlyHandedOver(s, id, valid, i), id, {Keep(s.executor[id].meeUserOps, valid)[i].meeUserOpHash})
         == PartlyHandedOver(s, id, valid, i + 1)
  {
    hide Keep, Rest, DistinctHashes;
    var ops := s.executor[id].meeUserOps;
    var kept := Keep(ops, valid);
    var part := PartlyHandedOver(s, id, valid, i);
    NextSingle(ops, valid, i);
    RestAfterSingle(ops, valid, i);
    AddJobsTwice(s, Singles(kept[..i]), [kept[i]], part.splitting);
    assert Singles(kept[..i + 1]) == Singles(kept[..i]) + [[kept[i]]];
  }

  /** Adding one more list later is adding it along with the others. */
  lemma {:induction false} AddJobsTwice(
      s: State, lists: seq<seq<MeeUserOp>>, last: seq<MeeUserOp>, splitting: map<nat, seq<MeeUserOp>>)
    ensures AddJobs(AddJobs(s, lists).(splitting := splitting), [last]) ==
            AddJobs(s, lists + [last]).(splitting := splitting)
  {
    var once, twice := AddJobs(s, lists + [last]), AddJobs(AddJobs(s, lists).(splitting := splitting), [last]);
    assert once.executor == twice.executor;
  }

  lemma {:induction false} AllPartsHandedOver(s: State, id: nat, valid: set<nat>)
    requires id in s.executor
    ensures var n := |Keep(s.executor[id].meeUserOps, valid)|;
            PartlyHandedOver(s, id, valid, n) == HandedOver(s, id, valid, true)
  {
    var kept := Keep(s.executor[id].meeUserOps, valid);
    assert kept[..|kept|] == kept;
    AllHandedOver(s.executor[id].meeUserOps, valid);
  }

  lemma NoneLeft(ops: seq<MeeUserOp>, now: int)
    ensures ops == [] ==> !AllExpired(ops, now)
  {
  }

  class ExecutorProcessor {
    const store: ChainStore
    const config: Config

    constructor (store: ChainStore, config: Config)
      ensures this.store == store && this.config == config
    {
      this.store, this.config := store, config;
    }

    /** A job that is being processed: its data is its own, and none of it has been handed on. */
    ghost predicate Owns(id: nat)
      reads store
    {
      id in store.executor && id !in store.splitting && DistinctHashes(store.executor[id].meeUserOps)
    }

    /** Sorts the operations by their time bounds and keeps the unexpired ones. */
    method ValidateTimebounds(ops: seq<MeeUserOp>, now: int) returns (valid: seq<MeeUserOp>, expired: seq<MeeUserOp>)
      requires DistinctHashes(ops)
      ensures valid == Keep(ops, Unexpired(ops, now))
      ensures expired == Keep(ops, Hashes(ops) - Unexpired(ops, now))
    {
      valid, expired := [], [];
      for i := 0 to |ops|
        invariant valid == Keep(ops[..i], Unexpired(ops, now))
        invariant expired == Keep(ops[..i], Hashes(ops) - Unexpired(ops, now))
      {
        var op := ops[i];
        SortByBound(ops, i, now);
        if now > op.upperBoundTimestamp {
          expired := expired + [op];
        } else {
          valid := valid + [op];
        }
      }
      assert ops[..|ops|] == ops;
    }

    /** Marks the expired operations as failed and leaves the job with the others. */
    method DropExpired(id: nat, now: int)
      requires Owns(id)
      modifies store
      ensures store.View() == Dropped(old(store.View()), id, now)
      ensures Owns(id)
      ensures forall op :: op in old(store.executor)[id].meeUserOps ==>
                if now > op.upperBoundTimestamp
                then op !in store.executor[id].meeUserOps && op.meeUserOpHash in store.settled
                     && Get(store.records, op.meeUserOpHash).error == Some(DeadlineExceeded)
                else op in store.executor[id].meeUserOps
    {
      var job := store.executor[id];
      var valid, expired := ValidateTimebounds(job.meeUserOps, now);
      assert Hashes(expired) == Hashes(job.meeUserOps) - Unexpired(job.meeUserOps, now);
      store.FailOps(expired, DeadlineExceeded);
      store.executor := store.executor[id := job.(meeUserOps := valid)];
      forall op | op in job.meeUserOps
        ensures op in valid <==> now <= op.upperBoundTimestamp
        ensures op in valid <==> op.meeUserOpHash !in Hashes(expired)
      {
        var i := IndexOf(job.meeUserOps, op);
        UnexpiredIsOwnBound(job.meeUserOps, i, now);
      }
    }

    method NoteTx(id: nat, previous: Option<nat>)
      requires Owns(id)
      modifies store
      ensures store.View() == Apply(config, old(store.View()), ExecNoteTx(id, previous))
      ensures Owns(id) && store.executor[id].meeUserOps == old(store.executor)[id].meeUserOps
    {
      store.executor := store.executor[id := store.executor[id].(previousTxHash := previous)];
    }

    /** An error thrown out of the processor: the last attempt is recorded, and the queue retries or drops the job. */
    method Throw(id: nat, unrecoverable: bool)
      requires Owns(id)
      modifies store
      ensures store.View() == Thrown(config, old(store.View()), id, unrecoverable)
    {
      FailNone(store.records, ExecutionFailed);
      var job := store.executor[id];
      if IsLastAttempt(config, job, unrecoverable) {
        store.FailOps(job.meeUserOps, ExecutionFailed);
      }
      if IsRetried(config, job, unrecoverable) {
        store.executor := store.executor[id := job.(attemptsMade := job.attemptsMade + 1)];
      } else {
        store.executor := store.executor - {id};
      }
    }

    /** The faulty operations stay behind, are marked as reverted, and the job ends. */
    method EndSplit(id: nat, faulty: seq<MeeUserOp>)
      requires id in store.executor && id in store.splitting && faulty == store.splitting[id]
      modifies store
      ensures store.View() == SplitEnded(old(store.View()), id)
    {
      store.FailOps(faulty, Reverted);
      store.executor := store.executor - {id};
      store.splitting := store.splitting - {id};
    }

    /** The steps carried out since state s, and nothing else, lead to the present state. */
    ghost predicate Traces(s: State, steps: seq<Step>)
      reads store
    {
      IsRun(config, s, steps) && store.View() == After(config, s, steps)
    }

    method ThrowError(id: nat, unrecoverable: bool, ghost s: State, ghost steps: seq<Step>)
      requires Owns(id) && Traces(s, steps)
      modifies store
      ensures Traces(s, steps + [ExecThrow(id, unrecoverable)])
      ensures IsThrown(config, old(store.View()), store.View(), id, unrecoverable, old(store.executor)[id].previousTxHash)
      ensures id !in store.splitting
      ensures id in store.executor ==> store.executor[id].attemptsMade == old(store.executor)[id].attemptsMade + 1
    {
      Append(config, s, steps, ExecThrow(id, unrecoverable));
      ThrownIsThrown(config, store.View(), id, unrecoverable);
      Throw(id, unrecoverable);
    }

    method Expire(id: nat, now: int, ghost s: State, ghost steps: seq<Step>)
      requires Owns(id) && Traces(s, steps)
      modifies store
      ensures Traces(s, steps + [ExecDropExpired(id, now)])
      ensures store.View() == Dropped(old(store.View()), id, now)
      ensures Owns(id) && store.nextJob == old(store.nextJob)
      ensures var job := old(store.executor)[id];
              store.executor[id] == job.(meeUserOps := Keep(job.meeUserOps, Unexpired(job.meeUserOps, now)))
    {
      Append(config, s, steps, ExecDropExpired(id, now));
      DropExpired(id, now);
    }

    method Finish(id: nat, txHash: nat, receipt: Option<Receipt>, ghost s: State, ghost steps: seq<Step>)
      requires Owns(id) && Traces(s, steps)
      modifies store
      ensures Traces(s, steps + [ExecFinish(id, txHash, receipt)])
      ensures IsClosed(old(store.View()), store.View(), id, txHash, receipt)
      ensures id !in store.splitting && id !in store.executor
    {
      Append(config, s, steps, ExecFinish(id, txHash, receipt));
      FinishedIsClosed(store.View(), id, txHash, receipt);
      var ops := store.executor[id].meeUserOps;
      HandleExecutionResult(ops, txHash, receipt, true);
      store.settled := store.settled + Hashes(ops);
      store.executor := store.executor - {id};
    }

    method QuickStatus(id: nat, early: Option<(nat, Receipt)>, ghost s: State, ghost steps: seq<Step>)
      requires Owns(id) && Traces(s, steps)
      modifies store`records
      ensures Traces(s, steps + EarlySteps(id, early))
      ensures store.View() == Seen(old(store.View()), id, early)
    {
      if early.Some? {
        Append(config, s, steps, ExecQuickStatus(id, early.value.0, early.value.1));
        HandleExecutionResult(store.executor[id].meeUserOps, early.value.0, Some(early.value.1), false);
      } else {
        assert steps + EarlySteps(id, early) == steps;
      }
    }

    /** One block of operations that the job still holds is added to the queue, or none if there are none. */
    method HandOver(id: nat, ops: seq<MeeUserOp>, ghost valid: set<nat>, ghost s: State, ghost steps: seq<Step>)
      requires id in store.executor && id < store.nextJob && Traces(s, steps)
      requires ops == Keep(Held(store.View(), id), valid)
      modifies store
      ensures Traces(s, steps + [ExecSplit(id, valid)])
      ensures store.View() == SplitOff(old(store.View()), id, valid)
      ensures id in store.executor && id < store.nextJob && id in store.splitting
      ensures var held := Held(old(store.View()), id); store.splitting[id] == Keep(held, Hashes(held) - valid)
    {
      hide Keep, IsRun, After;
      ghost var held := Held(store.View(), id);
      Append(config, s, steps, ExecSplit(id, valid));
      if |ops| > 0 {
        store.AddExecutorJobs([ops]);
      } else {
        AddNoJobs(store.View());
      }
      store.splitting := store.splitting[id := Keep(held, Hashes(held) - valid)];
    }

    /** The operations whose own simulation succeeds go to new blocks, one each. */
    method HandOverSeparately(id: nat, valid: set<nat>, ghost s: State, ghost steps: seq<Step>)
      requires Owns(id) && id < store.nextJob && Traces(s, steps)
      modifies store
      ensures Traces(s, steps + HandOverSteps(old(store.executor)[id].meeUserOps, id, valid, true))
      ensures id in store.executor && id in store.splitting
      ensures store.View() == HandedOver(old(store.View()), id, valid, true)
      ensures var ops := old(store.executor)[id].meeUserOps;
              store.splitting[id] == Keep(ops, Hashes(ops) - valid)
    {
      hide Keep, Traces, Rest, DistinctHashes, AddJobs, SplitOff;
      ghost var before := store.View();
      var ops := store.executor[id].meeUserOps;
      var kept := Keep(ops, valid);
      ghost var begun := steps + [ExecSplit(id, {})];
      NothingHandedOver(ops, valid);
      HandOver(id, [], {}, s, steps);
      SplitBegun(before, id, valid);
      assert begun + SingleSteps(kept[..0], id) == begun;
      for i := 0 to |kept|
        invariant id in store.executor && id < store.nextJob && id in store.splitting
        invariant store.splitting[id] == Rest(ops, valid, i)
        invariant store.View() == PartlyHandedOver(before, id, valid, i)
        invariant Traces(s, begun + SingleSteps(kept[..i], id))
      {
        NextSingle(ops, valid, i);
        RestAfterSingle(ops, valid, i);
        OneMoreHandedOver(before, id, valid, i);
        HandOver(id, [kept[i]], {kept[i].meeUserOpHash}, s, begun + SingleSteps(kept[..i], id));
        SingleSnoc(kept, id, i, begun);
      }
      AllHandedOver(ops, valid);
      AllPartsHandedOver(before, id, valid);
      assert kept[..|kept|] == kept;
      assert begun + SingleSteps(kept, id) == steps + HandOverSteps(ops, id, valid, true);
    }

    /** New blocks for the valid operations first, then the job ends with the faulty ones. */
    method HandleReverts(id: nat, valid: set<nat>, separate: bool, ghost s: State, ghost steps: seq<Step>)
      requires Owns(id) && id < store.nextJob && Traces(s, steps)
      modifies store
      ensures Traces(s, steps + SplitSteps(old(store.executor)[id].meeUserOps, id, valid, separate))
      ensures IsSplit(old(store.View()), store.View(), id, valid, separate)
      ensures id !in store.splitting && id !in store.executor
    {
      hide Keep, IsRun, After, SingleSteps, IsSplit, AddJobs;
      HandedOverIsSplit(store.View(), id, valid, separate);
      var ops := store.executor[id].meeUserOps;
      if separate {
        HandOverSeparately(id, valid, s, steps);
      } else {
        HandOver(id, Keep(ops, valid), valid, s, steps);
      }
      ghost var added := steps + HandOverSteps(ops, id, valid, separate);
      Append(config, s, added, ExecSplitEnd(id));
      EndSplit(id, Keep(ops, Hashes(ops) - valid));
      assert added + [ExecSplitEnd(id)] == steps + SplitSteps(ops, id, valid, separate);
    }

    method HandleFatal(
        id: nat, error: ErrorType, valid: set<nat>, ghost s: State, ghost steps: seq<Step>)
      requires Owns(id) && id < store.nextJob && Traces(s, steps)
      modifies store
      requires IsFatal(error) && store.executor[id].previousTxHash.None?
      ensures Traces(s, steps + FatalSteps(old(store.executor)[id].meeUserOps, id, error, valid))
      ensures FollowsFatal(config, old(store.View()), store.View(), id, error, valid)
      ensures id !in store.splitting
      ensures id in store.executor ==> store.executor[id].attemptsMade == old(store.executor)[id].attemptsMade + 1
    {
      hide Traces, SplitSteps, IsSplit, IsThrown;
      var isBlockGasLimitExceeded := error.BLOCK_GAS_LIMIT_EXCEEDS_ERROR?;
      if isBlockGasLimitExceeded && |store.executor[id].meeUserOps| == 1 {
        ThrowError(id, false, s, steps);
      } else {
        HandleReverts(id, valid, isBlockGasLimitExceeded, s, steps);
      }
    }

    /**
     * One attempt at a job: it follows the answers, and it is exactly the steps above, ending with the
     * job gone or set up for its next attempt.
     */
    method ProcessJob(id: nat, e: Attempt)
      requires Owns(id) && id < store.nextJob
      modifies store
      ensures FollowsAnswers(config, old(store.View()), store.View(), id, e)
      ensures IsRun(config, old(store.View()), AttemptSteps(old(store.executor)[id], id, e))
      ensures store.View() == After(config, old(store.View()), AttemptSteps(old(store.executor)[id], id, e))
      ensures id !in store.splitting
      ensures id in store.executor ==> store.executor[id].attemptsMade == old(store.executor)[id].attemptsMade + 1
    {
      hide SplitSteps, FreshSteps, FollowsTrimming, IsClosed, IsSplit, Dropped;
      ghost var s := store.View();
      ghost var steps: seq<Step> := [];
      var job := store.executor[id];
      ghost var all := AttemptSteps(job, id, e);
      if job.previousTxHash.Some? {
        if e.previousReceipt.Some? {
          if e.previousReceipt.value.reverted {
            HandleReverts(id, e.valid, false, s, steps);
          } else {
            Finish(id, job.previousTxHash.value, e.previousReceipt, s, steps);
          }
          assert [] + all == all;
          return;
        }
        Append(config, s, steps, ExecNoteTx(id, None));
        NoteTx(id, None);
        steps := steps + [ExecNoteTx(id, None)];
      }
      if job.previousTxHash.None? {
        NothingToForget(s, id);
      }
      ProcessFresh(id, e, s, steps);
      assert steps + FreshSteps(job.meeUserOps, id, e) == all;
    }

    method ProcessFresh(id: nat, e: Attempt, ghost s: State, ghost steps: seq<Step>)
      requires Owns(id) && id < store.nextJob && Traces(s, steps) && store.executor[id].previousTxHash.None?
      modifies store
      ensures var ops := old(store.executor)[id].meeUserOps;
              FollowsTrimming(config, Dropped(old(store.View()), id, e.now), store.View(), id, e, AllExpired(ops, e.now))
      ensures Traces(s, steps + FreshSteps(old(store.executor)[id].meeUserOps, id, e))
      ensures id !in store.splitting
      ensures id in store.executor ==> store.executor[id].attemptsMade == old(store.executor)[id].attemptsMade + 1
    {
      hide Traces, SubmissionSteps, Keep, Unexpired, FollowsTrimming, IsClosed, AllExpired;
      NothingKeptIff(store.executor[id].meeUserOps, e.now);
      NoneLeft(store.executor[id].meeUserOps, e.now);
      var initial := store.executor[id].meeUserOps;
      ghost var all := FreshSteps(initial, id, e);
      ghost var dropped := steps + [ExecDropExpired(id, e.now)];
      Expire(id, e.now, s, steps);
      var meeUserOps := store.executor[id].meeUserOps;
      if |initial| != |meeUserOps| && |meeUserOps| == 0 {
        ghost var trimmed := store.View();
        Finish(id, 0, None, s, dropped);
        ClosedEmpty(trimmed, store.View(), id, e, config);
        assert dropped + [ExecFinish(id, 0, None)] == steps + all;
      } else {
        Submit(id, e, s, dropped);
        assert dropped + SubmissionSteps(meeUserOps, id, e) == steps + all;
      }
    }

    /** The part of an attempt that talks to the chain. */
    method Submit(id: nat, e: Attempt, ghost s: State, ghost steps: seq<Step>)
      requires Owns(id) && id < store.nextJob && Traces(s, steps) && store.executor[id].previousTxHash.None?
      modifies store
      ensures FollowsTrimming(config, old(store.View()), store.View(), id, e, false)
      ensures Traces(s, steps + SubmissionSteps(old(store.executor)[id].meeUserOps, id, e))
      ensures id !in store.splitting
      ensures id in store.executor ==> store.executor[id].attemptsMade == old(store.executor)[id].attemptsMade + 1
    {
      hide Traces, OutcomeSteps, EarlySteps, FollowsSubmission, IsThrown;
      ghost var ops := store.executor[id].meeUserOps;
      if !e.feesAndNonceFetched {
        ThrowError(id, false, s, steps);
        return;
      }
      QuickStatus(id, e.first.early, s, steps);
      HandleOutcome(id, e, s, steps + EarlySteps(id, e.first.early));
      assert steps + EarlySteps(id, e.first.early) + OutcomeSteps(ops, id, e) == steps + SubmissionSteps(ops, id, e);
    }

    method HandleOutcome(id: nat, e: Attempt, ghost s: State, ghost steps: seq<Step>)
      requires Owns(id) && id < store.nextJob && Traces(s, steps) && store.executor[id].previousTxHash.None?
      modifies store
      ensures FollowsSubmission(config, old(store.View()), store.View(), id, e)
      ensures Traces(s, steps + OutcomeSteps(old(store.executor)[id].meeUserOps, id, e))
      ensures id !in store.splitting
      ensures id in store.executor ==> store.executor[id].attemptsMade == old(store.executor)[id].attemptsMade + 1
    {
      hide Traces, FinalSteps, RejectionSteps, FollowsInclusion;
      match e.first.submission
      case Included(txHash, receipt) => EndAttempt(id, txHash, receipt, s, steps);
      case Rejected(error, sent) => HandleRejection(id, error, sent, e, s, steps);
    }

    /** A submission that failed. */
    method HandleRejection(
        id: nat, error: ErrorType, sent: Option<nat>, e: Attempt, ghost s: State, ghost steps: seq<Step>)
      requires Owns(id) && id < store.nextJob && Traces(s, steps) && store.executor[id].previousTxHash.None?
      requires e.first.submission == Rejected(error, sent)
      modifies store
      ensures FollowsSubmission(config, old(store.View()), store.View(), id, e)
      ensures Traces(s, steps + RejectionSteps(old(store.executor)[id].meeUserOps, id, error, sent, e))
      ensures id !in store.splitting
      ensures id in store.executor ==> store.executor[id].attemptsMade == old(store.executor)[id].attemptsMade + 1
    {
      hide FatalSteps, RetrySteps, FollowsFatal, FollowsRetry, IsThrown, Seen;
      ghost var ops := store.executor[id].meeUserOps;
      if !IsRetriable(error) {
        HandleFatal(id, error, e.valid, s, steps);
      } else if error.TRANSACTION_RECEIPT_TIMEOUT_ERROR? && sent.Some? {
        Append(config, s, steps, ExecNoteTx(id, sent));
        ghost var before := store.View();
        NoteTx(id, sent);
        NotedIsThrown(config, before, id, sent);
        ThrowError(id, false, s, steps + [ExecNoteTx(id, sent)]);
        assert steps + [ExecNoteTx(id, sent)] + [ExecThrow(id, false)] == steps + RejectionSteps(ops, id, error, sent, e);
      } else if !e.feesAndNonceRefreshed {
        ThrowError(id, false, s, steps);
      } else {
        RetryOnce(id, e, s, steps);
      }
    }

    /** The immediate retry with fresh fees and nonce. */
    method RetryOnce(id: nat, e: Attempt, ghost s: State, ghost steps: seq<Step>)
      requires Owns(id) && id < store.nextJob && Traces(s, steps) && store.executor[id].previousTxHash.None?
      modifies store
      ensures FollowsRetry(config, Seen(old(store.View()), id, e.retry.early), store.View(), id, e)
      ensures Traces(s, steps + RetrySteps(old(store.executor)[id].meeUserOps, id, e))
      ensures id !in store.splitting
      ensures id in store.executor ==> store.executor[id].attemptsMade == old(store.executor)[id].attemptsMade + 1
    {
      hide Traces, EarlySteps, FinalSteps, FatalSteps, FollowsInclusion, FollowsFatal, IsThrown;
      ghost var ops := store.executor[id].meeUserOps;
      QuickStatus(id, e.retry.early, s, steps);
      ghost var done := steps + EarlySteps(id, e.retry.early);
      match e.retry.submission
      case Included(txHash, receipt) =>
        EndAttempt(id, txHash, receipt, s, done);
        assert done + FinalSteps(id, txHash, receipt) == steps + RetrySteps(ops, id, e);
      case Rejected(error, _) =>
        if !IsRetriable(error) {
          HandleFatal(id, error, e.valid, s, done);
          assert done + FatalSteps(ops, id, error, e.valid) == steps + RetrySteps(ops, id, e);
        } else {
          ThrowError(id, false, s, done);
          assert done + [ExecThrow(id, false)] == steps + RetrySteps(ops, id, e);
        }
    }

    method EndAttempt(id: nat, txHash: Option<nat>, receipt: Option<Receipt>, ghost s: State, ghost steps: seq<Step>)
      requires Owns(id) && Traces(s, steps) && store.executor[id].previousTxHash.None?
      modifies store
      ensures FollowsInclusion(config, old(store.View()), store.View(), id, txHash, receipt)
      ensures Traces(s, steps + FinalSteps(id, txHash, receipt))
      ensures id !in store.splitting
      ensures id in store.executor ==> store.executor[id].attemptsMade == old(store.executor)[id].attemptsMade + 1
    {
      if txHash.None? {
        ThrowError(id, true, s, steps);
      } else {
        Finish(id, txHash.value, receipt, s, steps);
      }
    }

    /** The outcome of a block on the records of its operations, read from the receipt's logs. */
    method HandleExecutionResult(ops: seq<MeeUserOp>, txHash: nat, receipt: Option<Receipt>, isConfirmed: bool)
      modifies store`records
      ensures store.records == BlockResult(old(store.records), ops, txHash, receipt, isConfirmed)
    {
      ghost var before := store.records;
      ghost var verdicts;
      if receipt.None? {
        verdicts := MarkExecuted(ops, txHash, isConfirmed);
      } else {
        var processed;
        processed, verdicts := ProcessEvents(ops, txHash, receipt.value.events, isConfirmed);
        MarkUnprocessed(ops, txHash, isConfirmed, processed, before, verdicts);
        VerdictsComplete(ops, receipt);
        verdicts := WithAbsent(verdicts, Hashes(ops));
      }
      MarkedIsBlockResult(before, store.records, verdicts, ops, txHash, receipt, isConfirmed);
    }

    /** Without a receipt every operation counts as executed. */
    method MarkExecuted(ops: seq<MeeUserOp>, txHash: nat, isConfirmed: bool) returns (ghost verdicts: map<nat, Verdict>)
      modifies store`records
      ensures verdicts == map h | h in Hashes(ops) :: Succeeded
      ensures Marked(old(store.records), store.records, verdicts, txHash, isConfirmed)
    {
      ghost var before := store.records;
      verdicts := map[];
      for i := 0 to |ops|
        invariant verdicts == map h | h in Hashes(ops[..i]) :: Succeeded
        invariant Marked(before, store.records, verdicts, txHash, isConfirmed)
      {
        PrefixHashes(ops, i);
        var h := ops[i].meeUserOpHash;
        MarkStep(before, store.records, verdicts, h, Succeeded, txHash, isConfirmed);
        Update(h, txHash, isConfirmed, None);
        verdicts := verdicts[h := Succeeded];
      }
      assert ops[..|ops|] == ops;
    }

    /** One pass over the events: each marks the first operation with its hash. */
    method ProcessEvents(ops: seq<MeeUserOp>, txHash: nat, events: seq<OpEvent>, isConfirmed: bool)
      returns (processed: set<nat>, ghost verdicts: map<nat, Verdict>)
      modifies store`records
      ensures verdicts == EventVerdicts(ops, events) && processed == verdicts.Keys
      ensures Marked(old(store.records), store.records, verdicts, txHash, isConfirmed)
    {
      ghost var before := store.records;
      processed, verdicts := {}, map[];
      for k := 0 to |events|
        invariant verdicts == EventVerdicts(ops, events[..k]) && processed == verdicts.Keys
        invariant Marked(before, store.records, verdicts, txHash, isConfirmed)
      {
        var e := events[k];
        assert events[..k + 1][..k] == events[..k];
        var i := FindOp(ops, e);
        if i < |ops| {
          var h := ops[i].meeUserOpHash;
          ghost var verdict := Worse(verdicts, h, e.success);
          MarkStep(before, store.records, verdicts, h, verdict, txHash, isConfirmed);
          Update(h, txHash, isConfirmed, if e.success then None else Some(Reverted));
          processed, verdicts := processed + {h}, verdicts[h := verdict];
        }
      }
      assert events[..|events|] == events;
    }

    /** The first operation with the event's hash. */
    method FindOp(ops: seq<MeeUserOp>, e: OpEvent) returns (i: nat)
      ensures i == FirstOp(ops, e)
    {
      i := 0;
      while i < |ops| && ops[i].userOpHash != e.userOpHash
        invariant i <= |ops|
        invariant forall j :: 0 <= j < i ==> ops[j].userOpHash != e.userOpHash
      {
        i := i + 1;
      }
      FirstOpIsFirst(ops, e, i);
    }

    /** Operations that no event mentioned are marked as failed. */
    method MarkUnprocessed(
        ops: seq<MeeUserOp>, txHash: nat, isConfirmed: bool, processed: set<nat>,
        ghost before: map<nat, Record>, ghost found: map<nat, Verdict>)
      requires processed == found.Keys && Marked(before, store.records, found, txHash, isConfirmed)
      modifies store`records
      ensures Marked(before, store.records, WithAbsent(found, Hashes(ops)), txHash, isConfirmed)
    {
      NoneAbsent(found);
      assert Hashes(ops[..0]) == {};
      for i := 0 to |ops|
        invariant Marked(before, store.records, WithAbsent(found, Hashes(ops[..i])), txHash, isConfirmed)
      {
        AbsentStep(before, store.records, found, ops, i, txHash, isConfirmed);
        if ops[i].meeUserOpHash !in processed {
          Update(ops[i].meeUserOpHash, txHash, isConfirmed, Some(NotProcessed));
        }
      }
      assert ops[..|ops|] == ops;
    }

    /** hset of the given fields; an error already on the record stays unless a new one is given. */
    method Update(h: nat, txHash: nat, isConfirmed: bool, error: Option<OpError>)
      modifies store`records
      ensures var r := Get(old(store.records), h);
              store.records == old(store.records)[h :=
                Record(if error.Some? then error else r.error, Some(txHash), Some(isConfirmed), true)]
    {
      var r := Get(store.records, h);
      r := r.(txHash := Some(txHash), isConfirmed := Some(isConfirmed), finished := true);
      if error.Some? {
        r := r.(error := error);
      }
      store.records := store.records[h := r];
    }
  }

  /** The records of the hashes with a verdict show the block's outcome, all others are as before. */
  ghost predicate Marked(
      before: map<nat, Record>, records: map<nat, Record>, verdicts: map<nat, Verdict>, txHash: nat, isConfirmed: bool)
  {
    && records.Keys == before.Keys + verdicts.Keys
    && forall h :: h in records ==>
         records[h] == if h in verdicts then ResultRecord(Get(before, h), verdicts[h], txHash, isConfirmed) else before[h]
  }

  /** A verdict may be new, or be given again, or turn a success into a failure. */
  lemma MarkStep(
      before: map<nat, Record>, records: map<nat, Record>, verdicts: map<nat, Verdict>,
      h: nat, verdict: Verdict, txHash: nat, isConfirmed: bool)
    requires Marked(before, records, verdicts, txHash, isConfirmed)
    requires h in verdicts ==> verdict == verdicts[h] || verdict.Failed?
    ensures Marked(before, records[h := ResultRecord(Get(records, h), verdict, txHash, isConfirmed)],
                   verdicts[h := verdict], txHash, isConfirmed)
  {
  }

  /** The first position that event e is attributed to, or |ops|. */
  function FirstOp(ops: seq<MeeUserOp>, e: OpEvent): (i: nat)
    ensures i <= |ops|
    ensures forall j :: 0 <= j < |ops| ==> (AttributedTo(ops, e, j) <==> j == i)
  {
    if ops == [] then 0
    else if ops[0].userOpHash == e.userOpHash then 0
    else
      var i := FirstOp(ops[1..], e);
      assert forall j :: 0 < j < |ops| ==> (AttributedTo(ops, e, j) <==> AttributedTo(ops[1..], e, j - 1)) by {
        forall j | 0 < j < |ops| ensures AttributedTo(ops, e, j) <==> AttributedTo(ops[1..], e, j - 1) {
          assert forall m :: 0 <= m < j - 1 ==> ops[1..][m] == ops[m + 1];
          assert forall m :: 0 < m < j ==> ops[m] == ops[1..][m - 1];
        }
      }
      i + 1
  }

  lemma FirstOpIsFirst(ops: seq<MeeUserOp>, e: OpEvent, i: nat)
    requires i <= |ops| && forall j :: 0 <= j < i ==> ops[j].userOpHash != e.userOpHash
    requires i < |ops| ==> ops[i].userOpHash == e.userOpHash
    ensures i == FirstOp(ops, e)
  {
    var first := FirstOp(ops, e);
    assert i < |ops| ==> AttributedTo(ops, e, i);
    assert first < |ops| ==> AttributedTo(ops, e, first);
  }

  function Worse(verdicts: map<nat, Verdict>, h: nat, success: bool): Verdict {
    if !success then Failed else if h in verdicts then verdicts[h] else Succeeded
  }

  function EventVerdicts(ops: seq<MeeUserOp>, events: seq<OpEvent>): map<nat, Verdict> {
    if events == [] then map[]
    else
      var e := events[|events| - 1];
      var verdicts := EventVerdicts(ops, events[..|events| - 1]);
      var i := FirstOp(ops, e);
      if i < |ops| then
        var h := ops[i].meeUserOpHash;
        verdicts[h := Worse(verdicts, h, e.success)]
      else verdicts
  }

  lemma EventSnoc(ops: seq<MeeUserOp>, events: seq<OpEvent>, h: nat, success: bool)
    requires events != []
    ensures var e := events[|events| - 1];
            var i := FirstOp(ops, e);
            HasEvent(ops, events, h, success) <==>
              || HasEvent(ops, events[..|events| - 1], h, success)
              || (e.success == success && i < |ops| && ops[i].meeUserOpHash == h)
  {
    var front, n := events[..|events| - 1], |events| - 1;
    if HasEvent(ops, front, h, success) {
      var k, i :| 0 <= k < |front| && 0 <= i < |ops|
        && front[k].success == success && ops[i].meeUserOpHash == h && AttributedTo(ops, front[k], i);
      assert events[k] == front[k];
    }
    if HasEvent(ops, events, h, success) {
      var k, i :| 0 <= k < |events| && 0 <= i < |ops|
        && events[k].success == success && ops[i].meeUserOpHash == h && AttributedTo(ops, events[k], i);
      assert k < n ==> front[k] == events[k];
    }
    var i := FirstOp(ops, events[n]);
    assert i < |ops| ==> AttributedTo(ops, events[n], i);
  }

  /** The verdicts collected in one pass are those that the list of events defines. */
  lemma {:induction false} VerdictsAgree(ops: seq<MeeUserOp>, events: seq<OpEvent>, h: nat)
    ensures h in EventVerdicts(ops, events) <==> HasEvent(ops, events, h, true) || HasEvent(ops, events, h, false)
    ensures h in EventVerdicts(ops, events) ==>
              EventVerdicts(ops, events)[h] == if HasEvent(ops, events, h, false) then Failed else Succeeded
    ensures HasEvent(ops, events, h, true) || HasEvent(ops, events, h, false) ==> h in Hashes(ops)
  {
    if events == [] {
    } else {
      VerdictsAgree(ops, events[..|events| - 1], h);
      EventSnoc(ops, events, h, true);
      EventSnoc(ops, events, h, false);
    }
  }

  /** The verdicts found, and Absent for the given hashes without one. */
  function WithAbsent(found: map<nat, Verdict>, hashes: set<nat>): map<nat, Verdict> {
    map h | h in found.Keys + hashes :: if h in found then found[h] else Absent
  }

  lemma NoneAbsent(found: map<nat, Verdict>)
    ensures WithAbsent(found, {}) == found
  {
  }

  lemma AbsentStep(
      before: map<nat, Record>, records: map<nat, Record>, found: map<nat, Verdict>,
      ops: seq<MeeUserOp>, i: nat, txHash: nat, isConfirmed: bool)
    requires i < |ops| && Marked(before, records, WithAbsent(found, Hashes(ops[..i])), txHash, isConfirmed)
    ensures var h := ops[i].meeUserOpHash;
            var updated := if h in found then records
                           else records[h := Record(Some(NotProcessed), Some(txHash), Some(isConfirmed), true)];
            Marked(before, updated, WithAbsent(found, Hashes(ops[..i + 1])), txHash, isConfirmed)
  {
    var h := ops[i].meeUserOpHash;
    var verdicts := WithAbsent(found, Hashes(ops[..i]));
    PrefixHashes(ops, i);
    if h in found {
      assert WithAbsent(found, Hashes(ops[..i + 1])) == verdicts;
    } else {
      assert WithAbsent(found, Hashes(ops[..i + 1])) == verdicts[h := Absent];
      MarkStep(before, records, verdicts, h, Absent, txHash, isConfirmed);
    }
  }

  lemma VerdictsComplete(ops: seq<MeeUserOp>, receipt: Option<Receipt>)
    requires receipt.Some?
    ensures var verdicts := WithAbsent(EventVerdicts(ops, receipt.value.events), Hashes(ops));
            && verdicts.Keys == Hashes(ops)
            && forall h :: h in verdicts ==> verdicts[h] == VerdictOf(ops, receipt, h)
  {
    var verdicts := WithAbsent(EventVerdicts(ops, receipt.value.events), Hashes(ops));
    forall h | h in verdicts ensures h in Hashes(ops) && verdicts[h] == VerdictOf(ops, receipt, h) {
      VerdictsAgree(ops, receipt.value.events, h);
    }
  }

  lemma MarkedIsBlockResult(
      before: map<nat, Record>, records: map<nat, Record>, verdicts: map<nat, Verdict>,
      ops: seq<MeeUserOp>, txHash: nat, receipt: Option<Receipt>, isConfirmed: bool)
    requires Marked(before, records, verdicts, txHash, isConfirmed)
    requires verdicts.Keys == Hashes(ops) && forall h :: h in verdicts ==> verdicts[h] == VerdictOf(ops, receipt, h)
    ensures records == BlockResult(before, ops, txHash, receipt, isConfirmed)
  {
  }

  lemma PrefixHashes(ops: seq<MeeUserOp>, i: nat)
    requires i < |ops|
    ensures Hashes(ops[..i + 1]) == Hashes(ops[..i]) + {ops[i].meeUserOpHash}
  {
    assert ops[..i + 1] == ops[..i] + [ops[i]];
  }
}
