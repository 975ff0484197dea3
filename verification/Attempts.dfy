/**
 * What one attempt at an executor job must do, by the answers of the outside world: which of its
 * operations end with what record, which go to new jobs, and whether the job is tried again.
 */
module Attempts {
  import opened UserOps
  import opened Records
  import opened Pipeline

  /** The classes an execution error is sorted into. */
  datatype ErrorType =
    | EXECUTION_FAILED
    | GAS_PRICE_TOO_LOW
    | MAX_FEE_TOO_LOW
    | NONCE_EXPIRED
    | PRIORITY_FEE_TOO_HIGH
    | UNRECOGNIZED_ERROR
    | TRANSACTION_RECEIPT_TIMEOUT_ERROR
    | BLOCK_GAS_LIMIT_EXCEEDS_ERROR
    | REPLACEMENT_TRANSACTION_GAS_PRICE_TOO_LOW
    | TRANSACTION_EXECUTION_SYNC_ERROR

  /** How submitting the block went; a receipt is missing when it could not be fetched. */
  datatype Submission =
    | Included(txHash: Option<nat>, receipt: Option<Receipt>)
    | Rejected(error: ErrorType, sent: Option<nat>)

  /** One executeBlock call: the one-confirmation receipt, if it came in time, and the final answer. */
  datatype BlockExecution = BlockExecution(early: Option<(nat, Receipt)>, submission: Submission)

  /** What the outside world answers during one attempt; a None receipt means that fetching it threw. */
  datatype Attempt = Attempt(
    previousReceipt: Option<Receipt>,
    now: int,
    feesAndNonceFetched: bool,
    first: BlockExecution,
    feesAndNonceRefreshed: bool,
    retry: BlockExecution,
    valid: set<nat>)

  // ----- Ends of an attempt -----

  /** Only the two queues' jobs and the records differ, and the records only for the given hashes. */
  ghost predicate OnlyTouches(s: State, t: State, hashes: set<nat>) {
    && t == s.(executor := t.executor, nextJob := t.nextJob, records := t.records, settled := t.settled)
    && forall h :: h !in hashes ==> Get(t.records, h) == Get(s.records, h) && (h in t.settled <==> h in s.settled)
  }

  /** What a receipt leaves on a record: the hash, whether it is final, and an error unless the operation was executed. */
  ghost predicate IsShown(before: Record, after: Record, verdict: Verdict, txHash: nat, isConfirmed: bool) {
    && after.txHash == Some(txHash) && after.isConfirmed == Some(isConfirmed) && after.finished
    && (verdict.Succeeded? ==> after.error == before.error)
    && (verdict.Failed? ==> after.error == Some(Reverted))
    && (verdict.Absent? ==> after.error == Some(NotProcessed))
  }

  /** The block is final: the job is gone, no job is new, and every record shows the receipt's verdict. */
  ghost predicate IsClosed(s: State, t: State, id: nat, txHash: nat, receipt: Option<Receipt>)
    requires id in s.executor
  {
    var ops := s.executor[id].meeUserOps;
    && OnlyTouches(s, t, Hashes(ops))
    && t.executor == s.executor - {id} && t.nextJob == s.nextJob
    && forall h :: h in Hashes(ops) ==>
         h in t.settled && IsShown(Get(s.records, h), Get(t.records, h), VerdictOf(ops, receipt, h), txHash, true)
  }

  /** A new job, not yet tried, of valid operations of the block; of one of them if they are separated. */
  predicate IsPartOf(job: ExecJob, ops: seq<MeeUserOp>, valid: set<nat>, separate: bool) {
    && job.attemptsMade == 0 && job.previousTxHash.None? && job.meeUserOps != []
    && (separate ==> |job.meeUserOps| == 1)
    && forall op :: op in job.meeUserOps ==> op in ops && op.meeUserOpHash in valid
  }

  /** Every operation that is not valid is recorded as reverted, and no other record is touched. */
  ghost predicate FaultyAreReverted(s: State, t: State, ops: seq<MeeUserOp>, valid: set<nat>) {
    && OnlyTouches(s, t, Hashes(ops) - valid)
    && forall h :: h in Hashes(ops) - valid ==>
         h in t.settled && Get(t.records, h) == Get(s.records, h).(error := Some(Reverted), finished := true)
  }

  /** The job is gone, and every valid operation is in exactly one new job. */
  ghost predicate ValidAreMoved(s: State, t: State, id: nat, ops: seq<MeeUserOp>, valid: set<nat>, separate: bool) {
    && id !in t.executor && s.nextJob <= t.nextJob && (!separate ==> t.nextJob <= s.nextJob + 1)
    && (forall j :: (j < s.nextJob || t.nextJob <= j) && j != id ==>
          (j in t.executor <==> j in s.executor) && (j in s.executor ==> t.executor[j] == s.executor[j]))
    && (forall j :: s.nextJob <= j < t.nextJob ==> j in t.executor && IsPartOf(t.executor[j], ops, valid, separate))
    && (forall op :: op in ops && op.meeUserOpHash in valid ==>
          exists j :: s.nextJob <= j < t.nextJob && op in t.executor[j].meeUserOps)
    && (forall j, k :: s.nextJob <= j < k < t.nextJob ==>
          forall op :: op in t.executor[j].meeUserOps ==> op !in t.executor[k].meeUserOps)
  }

  /** The block is cut up: valid operations go on in new jobs, and the others end here. */
  ghost predicate IsSplit(s: State, t: State, id: nat, valid: set<nat>, separate: bool)
    requires id in s.executor
  {
    && FaultyAreReverted(s, t, s.executor[id].meeUserOps, valid)
    && ValidAreMoved(s, t, id, s.executor[id].meeUserOps, valid, separate)
  }

  /**
   * The attempt fails: the queue tries the job again, with the given transaction to look at, unless
   * its attempts are used up or the error is unrecoverable; on the last attempt that the processor
   * recognises, every operation is recorded as failed.
   */
  ghost predicate IsThrown(c: Config, s: State, t: State, id: nat, unrecoverable: bool, previous: Option<nat>)
    requires id in s.executor
  {
    var job := s.executor[id];
    var ops := Hashes(job.meeUserOps);
    && OnlyTouches(s, t, ops) && t.nextJob == s.nextJob
    && (!unrecoverable && job.attemptsMade + 1 < c.attempts ==>
          t.executor == s.executor[id := ExecJob(job.meeUserOps, job.attemptsMade + 1, previous)])
    && (unrecoverable || job.attemptsMade + 1 >= c.attempts ==> t.executor == s.executor - {id})
    && (unrecoverable || job.attemptsMade + 1 == c.attempts ==>
          forall h :: h in ops ==>
            h in t.settled && Get(t.records, h) == Get(s.records, h).(error := Some(ExecutionFailed), finished := true))
    && (!unrecoverable && job.attemptsMade + 1 != c.attempts ==> t.records == s.records && t.settled == s.settled)
  }

  // ----- Intermediate states -----

  /** The transaction of an earlier attempt is forgotten, and what has expired by now is dropped. */
  function Trimmed(s: State, id: nat, now: int): State
    requires id in s.executor
  {
    Dropped(s.(executor := s.executor[id := s.executor[id].(previousTxHash := None)]), id, now)
  }

  /** A one-confirmation receipt, if there was one, has been shown on the records. */
  function Seen(s: State, id: nat, early: Option<(nat, Receipt)>): State
    requires id in s.executor
  {
    if early.None? then s
    else s.(records := BlockResult(s.records, s.executor[id].meeUserOps, early.value.0, Some(early.value.1), false))
  }

  function Late(ops: seq<MeeUserOp>, now: int): set<nat> {
    set op | op in ops && op.upperBoundTimestamp < now :: op.meeUserOpHash
  }

  lemma {:induction false} LateIsExpired(ops: seq<MeeUserOp>, now: int)
    requires DistinctHashes(ops)
    ensures forall op :: op in ops ==> (op.meeUserOpHash in Unexpired(ops, now) <==> now <= op.upperBoundTimestamp)
    ensures Hashes(ops) - Unexpired(ops, now) == Late(ops, now)
  {
    forall op | op in ops ensures op.meeUserOpHash in Unexpired(ops, now) <==> now <= op.upperBoundTimestamp {
      if op.meeUserOpHash in Unexpired(ops, now) {
        var other :| other in ops && now <= other.upperBoundTimestamp && other.meeUserOpHash == op.meeUserOpHash;
        SameOp(ops, op, other);
      }
    }
  }

  /** What has expired by now leaves the job with an error, and everything else in it stays. */
  lemma {:induction false} TrimmedDropsExpired(s: State, id: nat, now: int)
    requires id in s.executor && DistinctHashes(s.executor[id].meeUserOps)
    ensures var t, job := Trimmed(s, id, now), s.executor[id];
            var late := Late(job.meeUserOps, now);
            && OnlyTouches(s, t, late) && t.nextJob == s.nextJob && id in t.executor
            && t.executor == s.executor[id := ExecJob(t.executor[id].meeUserOps, job.attemptsMade, None)]
            && (forall op :: op in t.executor[id].meeUserOps <==> op in job.meeUserOps && now <= op.upperBoundTimestamp)
            && forall h :: h in late ==>
                 h in t.settled && Get(t.records, h) == Get(s.records, h).(error := Some(DeadlineExceeded), finished := true)
  {
    LateIsExpired(s.executor[id].meeUserOps, now);
    hide Late, Unexpired, DistinctHashes, Hashes;
    var ops := Keep(s.executor[id].meeUserOps, Unexpired(s.executor[id].meeUserOps, now));
    assert Trimmed(s, id, now).executor == s.executor[id := ExecJob(ops, s.executor[id].attemptsMade, None)];
  }

  lemma SameOp(ops: seq<MeeUserOp>, op: MeeUserOp, other: MeeUserOp)
    requires DistinctHashes(ops) && op in ops && other in ops && op.meeUserOpHash == other.meeUserOpHash
    ensures op == other
  {
    var i :| 0 <= i < |ops| && ops[i] == op;
    var j :| 0 <= j < |ops| && ops[j] == other;
  }

  /** A one-confirmation receipt is shown on the records as not final, and changes nothing else. */
  lemma {:induction false} SeenIsShown(s: State, id: nat, early: Option<(nat, Receipt)>)
    requires id in s.executor
    ensures var t, ops := Seen(s, id, early), s.executor[id].meeUserOps;
            && (early.None? ==> t == s)
            && (early.Some? ==>
                  && OnlyTouches(s, t, Hashes(ops)) && t == s.(records := t.records)
                  && forall h :: h in Hashes(ops) ==>
                       IsShown(Get(s.records, h), Get(t.records, h),
                               VerdictOf(ops, Some(early.value.1), h), early.value.0, false))
  {
    hide VerdictOf;
  }

  // ----- From answers to ends -----

  /** Errors for which the block's operations are simulated again one by one. */
  predicate IsFault(error: ErrorType) {
    error == EXECUTION_FAILED || error == UNRECOGNIZED_ERROR
  }

  /** A submission that was included is final; without a known transaction hash it has failed for good. */
  ghost predicate FollowsInclusion(
      c: Config, s: State, t: State, id: nat, txHash: Option<nat>, receipt: Option<Receipt>)
    requires id in s.executor
  {
    && (txHash.Some? ==> IsClosed(s, t, id, txHash.value, receipt))
    && (txHash.None? ==> IsThrown(c, s, t, id, true, None))
  }

  /** A faulty block is split; one too big for the chain is cut into single operations, unless it is one. */
  ghost predicate FollowsFatal(c: Config, s: State, t: State, id: nat, error: ErrorType, valid: set<nat>)
    requires id in s.executor
  {
    && (IsFault(error) ==> IsSplit(s, t, id, valid, false))
    && (error == BLOCK_GAS_LIMIT_EXCEEDS_ERROR && |s.executor[id].meeUserOps| != 1 ==> IsSplit(s, t, id, valid, true))
    && (error == BLOCK_GAS_LIMIT_EXCEEDS_ERROR && |s.executor[id].meeUserOps| == 1 ==> IsThrown(c, s, t, id, false, None))
  }

  predicate IsFatal(error: ErrorType) {
    IsFault(error) || error == BLOCK_GAS_LIMIT_EXCEEDS_ERROR
  }

  /** After the second submission an error that is not fatal leaves the rest to the queue. */
  ghost predicate FollowsRetry(c: Config, s: State, t: State, id: nat, e: Attempt)
    requires id in s.executor
  {
    match e.retry.submission
    case Included(txHash, receipt) => FollowsInclusion(c, s, t, id, txHash, receipt)
    case Rejected(error, _) =>
      && (IsFatal(error) ==> FollowsFatal(c, s, t, id, error, e.valid))
      && (!IsFatal(error) ==> IsThrown(c, s, t, id, false, None))
  }

  /**
   * After the first submission an error that is not fatal is answered by a second one with fresh fees
   * and nonce, except that a transaction whose receipt did not come is looked for in the next attempt.
   */
  ghost predicate FollowsSubmission(c: Config, s: State, t: State, id: nat, e: Attempt)
    requires id in s.executor
  {
    match e.first.submission
    case Included(txHash, receipt) => FollowsInclusion(c, s, t, id, txHash, receipt)
    case Rejected(error, sent) =>
      var lookLater := error == TRANSACTION_RECEIPT_TIMEOUT_ERROR && sent.Some?;
      && (IsFatal(error) ==> FollowsFatal(c, s, t, id, error, e.valid))
      && (lookLater ==> IsThrown(c, s, t, id, false, sent))
      && (!IsFatal(error) && !lookLater && !e.feesAndNonceRefreshed ==> IsThrown(c, s, t, id, false, None))
      && (!IsFatal(error) && !lookLater && e.feesAndNonceRefreshed ==>
            FollowsRetry(c, Seen(s, id, e.retry.early), t, id, e))
  }

  /** The block is submitted with what has not expired, if that is anything and fees and nonce could be had. */
  ghost predicate FollowsTrimming(c: Config, s: State, t: State, id: nat, e: Attempt, nothingLeft: bool)
    requires id in s.executor
  {
    && (nothingLeft ==> OnlyTouches(s, t, {}) && t.executor == s.executor - {id} && t.nextJob == s.nextJob)
    && (!nothingLeft && !e.feesAndNonceFetched ==> IsThrown(c, s, t, id, false, None))
    && (!nothingLeft && e.feesAndNonceFetched ==> FollowsSubmission(c, Seen(s, id, e.first.early), t, id, e))
  }

  /** Everything in the block has expired. */
  predicate AllExpired(ops: seq<MeeUserOp>, now: int) {
    ops != [] && forall op :: op in ops ==> op.upperBoundTimestamp < now
  }

  /**
   * An attempt first looks for the transaction of an earlier one. If that has been mined, nothing is
   * submitted: a successful one makes the block final, a reverted one splits it.
   */
  ghost predicate FollowsAnswers(c: Config, s: State, t: State, id: nat, e: Attempt)
    requires id in s.executor
  {
    var job := s.executor[id];
    var mined := job.previousTxHash.Some? && e.previousReceipt.Some?;
    && (mined && !e.previousReceipt.value.reverted ==> IsClosed(s, t, id, job.previousTxHash.value, e.previousReceipt))
    && (mined && e.previousReceipt.value.reverted ==> IsSplit(s, t, id, e.valid, false))
    && (!mined ==> FollowsTrimming(c, Trimmed(s, id, e.now), t, id, e, AllExpired(job.meeUserOps, e.now)))
  }

  // ----- The step relation has these ends -----

  lemma {:induction false} NothingKeptIff(ops: seq<MeeUserOp>, now: int)
    ensures Keep(ops, Unexpired(ops, now)) == [] <==> ops == [] || AllExpired(ops, now)
  {
    var kept := Keep(ops, Unexpired(ops, now));
    if kept == [] {
      forall op | op in ops ensures op.upperBoundTimestamp < now {
        assert now <= op.upperBoundTimestamp ==> op.meeUserOpHash in Unexpired(ops, now);
        assert op.meeUserOpHash in Unexpired(ops, now) ==> op in kept;
      }
    } else {
      assert kept[0] in kept;
      var op :| op in ops && now <= op.upperBoundTimestamp && op.meeUserOpHash == kept[0].meeUserOpHash;
    }
  }

  /** Nothing is forgotten if there is nothing to forget. */
  lemma {:induction false} NothingToForget(s: State, id: nat)
    requires id in s.executor && s.executor[id].previousTxHash.None?
    ensures s.(executor := s.executor[id := s.executor[id].(previousTxHash := None)]) == s
  {
  }

  lemma {:induction false} ClosedEmpty(s: State, t: State, id: nat, e: Attempt, c: Config)
    requires id in s.executor && s.executor[id].meeUserOps == [] && IsClosed(s, t, id, 0, None)
    ensures FollowsTrimming(c, s, t, id, e, true)
  {
    assert Hashes([]) == {};
  }

  lemma {:induction false} FinishedIsClosed(s: State, id: nat, txHash: nat, receipt: Option<Receipt>)
    requires id in s.executor
    ensures IsClosed(s, Finished(s, id, txHash, receipt), id, txHash, receipt)
  {
    hide VerdictOf;
  }

  lemma {:induction false} ThrownIsThrown(c: Config, s: State, id: nat, unrecoverable: bool)
    requires id in s.executor
    ensures IsThrown(c, s, Thrown(c, s, id, unrecoverable), id, unrecoverable, s.executor[id].previousTxHash)
  {
    FailNone(s.records, ExecutionFailed);
  }

  /** A transaction to look for is noted before the error is thrown. */
  lemma {:induction false} NotedIsThrown(c: Config, s: State, id: nat, previous: Option<nat>)
    requires id in s.executor
    ensures var noted := s.(executor := s.executor[id := s.executor[id].(previousTxHash := previous)]);
            forall t :: IsThrown(c, noted, t, id, false, previous) ==> IsThrown(c, s, t, id, false, previous)
  {
    var noted := s.(executor := s.executor[id := s.executor[id].(previousTxHash := previous)]);
    forall t | IsThrown(c, noted, t, id, false, previous) ensures IsThrown(c, s, t, id, false, previous) {
      var job := noted.executor[id];
      assert noted.executor[id := ExecJob(job.meeUserOps, job.attemptsMade + 1, previous)]
          == s.executor[id := ExecJob(job.meeUserOps, job.attemptsMade + 1, previous)];
      assert noted.executor - {id} == s.executor - {id};
    }
  }

  /** One list for each operation. */
  function Singles(ops: seq<MeeUserOp>): (lists: seq<seq<MeeUserOp>>)
    ensures |lists| == |ops| && forall i :: 0 <= i < |ops| ==> lists[i] == [ops[i]]
  {
    seq(|ops|, i requires 0 <= i < |ops| => [ops[i]])
  }

  function Blocks(kept: seq<MeeUserOp>, separate: bool): seq<seq<MeeUserOp>> {
    if separate then Singles(kept) else NewBlock(kept)
  }

  /** The job once all valid operations have been handed over. */
  function HandedOver(s: State, id: nat, valid: set<nat>, separate: bool): State
    requires id in s.executor
  {
    var ops := s.executor[id].meeUserOps;
    AddJobs(s, Blocks(Keep(ops, valid), separate)).(splitting := s.splitting[id := Keep(ops, Hashes(ops) - valid)])
  }

  /** Each valid operation is in the one list that it was put into. */
  ghost predicate EachOnce(kept: seq<MeeUserOp>, lists: seq<seq<MeeUserOp>>, separate: bool) {
    && (forall i :: 0 <= i < |lists| ==> lists[i] != [] && (separate ==> |lists[i]| == 1))
    && (!separate ==> |lists| <= 1)
    && (forall i, op :: 0 <= i < |lists| && op in lists[i] ==> op in kept)
    && (forall op :: op in kept ==> exists i :: 0 <= i < |lists| && op in lists[i])
    && (forall i, j, op :: 0 <= i < |lists| && 0 <= j < |lists| && op in lists[i] && op in lists[j] ==> i == j)
  }

  lemma {:induction false} BlocksHoldEachOnce(kept: seq<MeeUserOp>, separate: bool)
    requires DistinctHashes(kept)
    ensures EachOnce(kept, Blocks(kept, separate), separate)
  {
    var lists := Blocks(kept, separate);
    forall op | op in kept ensures exists i :: 0 <= i < |lists| && op in lists[i] {
      var k :| 0 <= k < |kept| && kept[k] == op;
      assert op in lists[if separate then k else 0];
    }
  }

  /** The state after the lists have been added and the rest has been recorded. */
  function SplitInto(s: State, id: nat, lists: seq<seq<MeeUserOp>>, rest: seq<MeeUserOp>): State
    requires id in s.executor
  {
    SplitEnded(AddJobs(s, lists).(splitting := s.splitting[id := rest]), id)
  }

  lemma {:induction false} RestIsReverted(
      s: State, id: nat, valid: set<nat>, lists: seq<seq<MeeUserOp>>, rest: seq<MeeUserOp>)
    requires id in s.executor && id !in s.splitting
    requires Hashes(rest) == Hashes(s.executor[id].meeUserOps) - valid
    ensures FaultyAreReverted(s, SplitInto(s, id, lists, rest), s.executor[id].meeUserOps, valid)
  {
    assert SplitInto(s, id, lists, rest).splitting == s.splitting;
  }

  lemma {:induction false} NewJobsOf(s: State, id: nat, lists: seq<seq<MeeUserOp>>, rest: seq<MeeUserOp>)
    requires id in s.executor && id < s.nextJob
    ensures var t := SplitInto(s, id, lists, rest);
            && t.nextJob == s.nextJob + |lists| && id !in t.executor
            && (forall j :: (j < s.nextJob || t.nextJob <= j) && j != id ==>
                  (j in t.executor <==> j in s.executor) && (j in s.executor ==> t.executor[j] == s.executor[j]))
            && forall j :: s.nextJob <= j < t.nextJob ==>
                 j in t.executor && t.executor[j] == ExecJob(lists[j - s.nextJob], 0, None)
  {
  }

  lemma {:induction false} ListsAreMoved(
      s: State, id: nat, valid: set<nat>, separate: bool,
      kept: seq<MeeUserOp>, lists: seq<seq<MeeUserOp>>, rest: seq<MeeUserOp>)
    requires id in s.executor && id < s.nextJob
    requires forall op :: op in kept <==> op in s.executor[id].meeUserOps && op.meeUserOpHash in valid
    requires EachOnce(kept, lists, separate)
    ensures ValidAreMoved(s, SplitInto(s, id, lists, rest), id, s.executor[id].meeUserOps, valid, separate)
  {
    hide SplitInto;
    NewJobsOf(s, id, lists, rest);
    var t := SplitInto(s, id, lists, rest);
    forall op | op in kept ensures exists j :: s.nextJob <= j < t.nextJob && op in t.executor[j].meeUserOps {
      var i :| 0 <= i < |lists| && op in lists[i];
      assert op in t.executor[s.nextJob + i].meeUserOps;
    }
    forall j, k, op | s.nextJob <= j < k < t.nextJob && op in t.executor[j].meeUserOps
      ensures op !in t.executor[k].meeUserOps
    {
      assert op in lists[j - s.nextJob];
      assert op in lists[k - s.nextJob] ==> j - s.nextJob == k - s.nextJob;
    }
  }

  lemma {:induction false} HandedOverIsSplit(s: State, id: nat, valid: set<nat>, separate: bool)
    requires id in s.executor && id < s.nextJob && id !in s.splitting && DistinctHashes(s.executor[id].meeUserOps)
    ensures IsSplit(s, SplitEnded(HandedOver(s, id, valid, separate), id), id, valid, separate)
  {
    hide FaultyAreReverted, ValidAreMoved, EachOnce, AddJobs, SplitEnded;
    var ops := s.executor[id].meeUserOps;
    var kept, rest := Keep(ops, valid), Keep(ops, Hashes(ops) - valid);
    BlocksHoldEachOnce(kept, separate);
    RestIsReverted(s, id, valid, Blocks(kept, separate), rest);
    ListsAreMoved(s, id, valid, separate, kept, Blocks(kept, separate), rest);
  }
}
