/**
 * What the record of a user operation says when its block is final, over whole runs of the
 * three actors.
 */
module Outcomes {
  import opened UserOps
  import opened Records
  import opened Pipeline
  import Conservation

  /** The logs hold a success event of the operation, and no failure event. */
  ghost predicate Executed(op: MeeUserOp, events: seq<OpEvent>) {
    && OpEvent(op.userOpHash, true) in events
    && OpEvent(op.userOpHash, false) !in events
  }

  ghost predicate DistinctUserOpHashes(ops: seq<MeeUserOp>) {
    forall i, j :: 0 <= i < j < |ops| ==> ops[i].userOpHash != ops[j].userOpHash
  }

  lemma HasEventIffInLogs(ops: seq<MeeUserOp>, events: seq<OpEvent>, i: nat, success: bool)
    requires i < |ops| && DistinctHashes(ops) && DistinctUserOpHashes(ops)
    ensures HasEvent(ops, events, ops[i].meeUserOpHash, success) <==> OpEvent(ops[i].userOpHash, success) in events
  {
    if HasEvent(ops, events, ops[i].meeUserOpHash, success) {
      var k, j :| 0 <= k < |events| && 0 <= j < |ops| && events[k].success == success
        && ops[j].meeUserOpHash == ops[i].meeUserOpHash && AttributedTo(ops, events[k], j);
      assert events[k] == OpEvent(ops[i].userOpHash, success);
    }
    if OpEvent(ops[i].userOpHash, success) in events {
      var k :| 0 <= k < |events| && events[k] == OpEvent(ops[i].userOpHash, success);
      assert AttributedTo(ops, events[k], i);
    }
  }

  /** With distinct hashes, a receipt counts an operation as executed by the operation's own events. */
  lemma SucceededIffExecuted(ops: seq<MeeUserOp>, i: nat, receipt: Option<Receipt>)
    requires i < |ops| && DistinctHashes(ops) && DistinctUserOpHashes(ops)
    ensures VerdictOf(ops, receipt, ops[i].meeUserOpHash).Succeeded? <==>
            receipt.None? || Executed(ops[i], receipt.value.events)
    ensures VerdictOf(ops, receipt, ops[i].meeUserOpHash).Failed? <==>
            receipt.Some? && OpEvent(ops[i].userOpHash, false) in receipt.value.events
  {
    if receipt.Some? {
      HasEventIffInLogs(ops, receipt.value.events, i, true);
      HasEventIffInLogs(ops, receipt.value.events, i, false);
    }
  }

  // ----- Errors over whole runs -----

  lemma {:induction false} CreateErrorsKeepsErrors(records: map<nat, Record>, ops: seq<MeeUserOp>, error: OpError, h: nat)
    ensures Get(records, h).error.Some? ==> Get(CreateErrors(records, ops, error), h) == Get(records, h)
    ensures h !in Hashes(ops) ==> Get(CreateErrors(records, ops, error), h) == Get(records, h)
  {
    if ops != [] {
      CreateErrorsKeepsErrors(records, ops[..|ops| - 1], error, h);
    }
  }

  /** No step of any actor ever removes an error from a record. */
  lemma {:induction false} ErrorsAreForever(c: Config, s: State, steps: seq<Step>, h: nat)
    requires IsRun(c, s, steps) && Get(s.records, h).error.Some?
    ensures Get(After(c, s, steps).records, h).error.Some?
    decreases |steps|
  {
    if steps == [] {
    } else {
      if steps[0].PassAdd? {
        CreateErrorsKeepsErrors(s.records, Packing.Oversized(c.gas, c.batchGasLimit, SnapshotOps(s, s.pass.jobs)),
                                InvalidMaxGasLimit, h);
      }
      ErrorsAreForever(c, Apply(c, s, steps[0]), steps[1..], h);
    }
  }

  // ----- Records before the final outcome -----

  /** The step shows hash h's record what a one-confirmation receipt says. */
  predicate Shows(s: State, step: Step, h: nat) {
    step.ExecQuickStatus? && step.job in s.executor && h in Hashes(s.executor[step.job].meeUserOps)
  }

  predicate ShowsFailure(s: State, step: Step, h: nat) {
    Shows(s, step, h) && !VerdictOf(s.executor[step.job].meeUserOps, Some(step.seen), h).Succeeded?
  }

  /** Some early receipt of the run counted h's operation as not executed. */
  ghost predicate EverShownFailed(c: Config, s: State, steps: seq<Step>, h: nat)
    requires IsRun(c, s, steps)
    decreases |steps|
  {
    steps != [] && (ShowsFailure(s, steps[0], h) || EverShownFailed(c, Apply(c, s, steps[0]), steps[1..], h))
  }

  /** The record of h after a step that does not settle it. */
  function PendingRecord(s: State, step: Step, h: nat): Record {
    if Shows(s, step, h) then
      ResultRecord(Get(s.records, h), VerdictOf(s.executor[step.job].meeUserOps, Some(step.seen), h), step.txHash, false)
    else Get(s.records, h)
  }

  lemma PassAddRecords(c: Config, s: State, batches: seq<Packing.Batch>, h: nat)
    requires Enabled(c, s, PassAdd(batches))
    ensures var s' := Batched(c, s, batches);
            h !in s'.settled ==> Get(s'.records, h) == Get(s.records, h)
  {
    CreateErrorsKeepsErrors(s.records, Packing.Oversized(c.gas, c.batchGasLimit, SnapshotOps(s, s.pass.jobs)),
                            InvalidMaxGasLimit, h);
  }

  lemma ExecutorRecords(c: Config, s: State, step: Step, h: nat)
    requires Enabled(c, s, step)
    requires step.ExecDropExpired? || step.ExecFinish? || step.ExecThrow? || step.ExecSplitEnd? || step.ExecQuickStatus?
    ensures var s' := Apply(c, s, step);
            s.settled <= s'.settled && (h !in s'.settled ==> Get(s'.records, h) == PendingRecord(s, step, h))
  {
    hide Keep, Unexpired, IsLastAttempt, IsRetried, VerdictOf, ResultRecord;
  }

  lemma OtherRecords(c: Config, s: State, step: Step, h: nat)
    requires Enabled(c, s, step) && !step.PassAdd?
    requires !(step.ExecDropExpired? || step.ExecFinish? || step.ExecThrow? || step.ExecSplitEnd? || step.ExecQuickStatus?)
    ensures var s' := Apply(c, s, step);
            s.settled <= s'.settled && (h !in s'.settled ==> Get(s'.records, h) == Get(s.records, h))
  {
    hide Keep, NewBlock, Held, FailAll, BlockResult, CreateErrors;
  }

  /** Until its outcome is settled, an operation's record is written by early receipts alone. */
  lemma StepOnPending(c: Config, s: State, step: Step, h: nat)
    requires Enabled(c, s, step)
    ensures var s' := Apply(c, s, step);
            s.settled <= s'.settled && (h !in s'.settled ==> Get(s'.records, h) == PendingRecord(s, step, h))
  {
    match step
    case PassAdd(batches) => PassAddRecords(c, s, batches, h);
    case ExecDropExpired(_, _) => ExecutorRecords(c, s, step, h);
    case ExecQuickStatus(_, _, _) => ExecutorRecords(c, s, step, h);
    case ExecFinish(_, _, _) => ExecutorRecords(c, s, step, h);
    case ExecThrow(_, _) => ExecutorRecords(c, s, step, h);
    case ExecSplitEnd(_) => ExecutorRecords(c, s, step, h);
    case _ => OtherRecords(c, s, step, h);
  }

  lemma {:induction false} PendingErrors(c: Config, s: State, steps: seq<Step>, h: nat)
    requires IsRun(c, s, steps) && h !in After(c, s, steps).settled
    ensures h !in s.settled
    ensures var r, r' := Get(s.records, h), Get(After(c, s, steps).records, h);
            && (r'.error.Some? <==> r.error.Some? || EverShownFailed(c, s, steps, h))
            && (r' == r || r'.isConfirmed == Some(false))
    decreases |steps|
  {
    hide Enabled, Apply;
    if steps != [] {
      StepOnPending(c, s, steps[0], h);
      PendingErrors(c, Apply(c, s, steps[0]), steps[1..], h);
    }
  }

  /**
   * In every run, an operation without a final outcome shows an error exactly if an early receipt
   * counted it as not executed; its record then says that it is not confirmed.
   */
  lemma {:induction false} PendingErrorsOverRuns(c: Config, steps: seq<Step>, h: nat)
    requires IsRun(c, INIT, steps) && h !in After(c, INIT, steps).settled
    ensures var r := Get(After(c, INIT, steps).records, h);
            && (r.error.Some? <==> EverShownFailed(c, INIT, steps, h))
            && (r.error.Some? ==> r.isConfirmed == Some(false))
  {
    PendingErrors(c, INIT, steps, h);
  }

  // ----- Records after the final outcome -----

  lemma SettledByExecutor(c: Config, s: State, step: Step, h: nat)
    requires Conservation.Inv(c, s) && Enabled(c, s, step) && h in s.settled
    requires step.ExecDropExpired? || step.ExecFinish? || step.ExecThrow? || step.ExecQuickStatus?
    ensures Get(Apply(c, s, step).records, h) == Get(s.records, h)
  {
    Conservation.JobOwnsItsOps(c, s, step.job);
    assert h !in Hashes(s.executor[step.job].meeUserOps);
    hide Keep, Unexpired, IsLastAttempt, IsRetried, VerdictOf, ResultRecord;
  }

  /** A place that owns a hash other than as settled excludes that it is settled. */
  lemma OwnedIsNotSettled(c: Config, s: State, p: Conservation.Place, h: nat)
    requires Conservation.Inv(c, s) && Conservation.Owns(s, p, h) && !p.Settled?
    ensures h !in s.settled
  {
    assert Conservation.OwnedOnce(s, h);
    assert h in s.settled ==> Conservation.Owns(s, Conservation.Settled, h);
  }

  lemma SettledBySplitEnd(c: Config, s: State, job: nat, h: nat)
    requires Conservation.Inv(c, s) && Enabled(c, s, ExecSplitEnd(job)) && h in s.settled
    ensures Get(SplitEnded(s, job).records, h) == Get(s.records, h)
  {
    if h in Hashes(s.splitting[job]) {
      Conservation.HeldIsOwn(c, s, job);
      OwnedIsNotSettled(c, s, Conservation.Executing(job), h);
    }
  }

  lemma SettledByPassAdd(c: Config, s: State, batches: seq<Packing.Batch>, h: nat)
    requires Conservation.Inv(c, s) && Enabled(c, s, PassAdd(batches)) && h in s.settled
    ensures Get(Batched(c, s, batches).records, h) == Get(s.records, h)
  {
    var ops := SnapshotOps(s, s.pass.jobs);
    Packing.PackingSortsByGas(c.gas, c.batchGasLimit, ops);
    forall op | op in ops ensures op.meeUserOpHash != h {
      var i :| 0 <= i < |ops| && ops[i] == op;
      OwnedIsNotSettled(c, s, Conservation.Simulated(s.pass.jobs[i]), op.meeUserOpHash);
    }
    CreateErrorsKeepsErrors(s.records, Packing.Oversized(c.gas, c.batchGasLimit, ops), InvalidMaxGasLimit, h);
  }

  lemma SettledBySimFail(c: Config, s: State, job: nat, error: OpError, h: nat)
    requires Conservation.Inv(c, s) && Enabled(c, s, SimFail(job, error)) && h in s.settled
    ensures Get(FailedInSimulation(s, job, error).records, h) == Get(s.records, h)
  {
    OwnedIsNotSettled(c, s, Conservation.Simulating(job), s.simulator[job].op.meeUserOpHash);
  }

  lemma StepOnSettled(c: Config, s: State, step: Step, h: nat)
    requires Conservation.Inv(c, s) && Enabled(c, s, step) && h in s.settled
    ensures Get(Apply(c, s, step).records, h) == Get(s.records, h) && h in Apply(c, s, step).settled
  {
    StepOnPending(c, s, step, h);
    match step
    case PassAdd(batches) => SettledByPassAdd(c, s, batches, h);
    case SimFail(job, error) => SettledBySimFail(c, s, job, error, h);
    case ExecDropExpired(_, _) => SettledByExecutor(c, s, step, h);
    case ExecQuickStatus(_, _, _) => SettledByExecutor(c, s, step, h);
    case ExecFinish(_, _, _) => SettledByExecutor(c, s, step, h);
    case ExecThrow(_, _) => SettledByExecutor(c, s, step, h);
    case ExecSplitEnd(job) => SettledBySplitEnd(c, s, job, h);
    case _ => hide Conservation.Inv;
  }

  /** Once an operation has its final outcome, nothing in any run writes its record again. */
  lemma {:induction false} SettledIsFinal(c: Config, s: State, steps: seq<Step>, h: nat)
    requires Conservation.Inv(c, s) && c.attempts > 0 && IsRun(c, s, steps) && h in s.settled
    ensures Get(After(c, s, steps).records, h) == Get(s.records, h)
    decreases |steps|
  {
    hide Conservation.Inv, Enabled, Apply;
    if steps != [] {
      StepOnSettled(c, s, steps[0], h);
      Conservation.StepKeeps(c, s, steps[0]);
      SettledIsFinal(c, Apply(c, s, steps[0]), steps[1..], h);
    }
  }

  // ----- The final record -----

  lemma FinishedRecord(records: map<nat, Record>, ops: seq<MeeUserOp>, txHash: nat, receipt: Option<Receipt>, h: nat)
    requires h in Hashes(ops)
    ensures var r := Get(BlockResult(records, ops, txHash, receipt, true), h);
            && (r.error.None? <==> Get(records, h).error.None? && VerdictOf(ops, receipt, h).Succeeded?)
            && r.txHash == Some(txHash) && r.isConfirmed == Some(true) && r.finished
  {
    hide VerdictOf;
  }

  /**
   * In every run, and for good: the record of an operation whose block has its final receipt is
   * without error exactly if that receipt's logs say that the operation was executed, and no early
   * receipt, of whatever attempt, ever counted it as not executed.
   */
  lemma {:induction false} FinalRecordIff(
      c: Config, before: seq<Step>, job: nat, i: nat, txHash: nat, receipt: Option<Receipt>, after: seq<Step>)
    requires c.attempts > 0 && IsRun(c, INIT, before)
    requires Enabled(c, After(c, INIT, before), ExecFinish(job, txHash, receipt))
    requires IsRun(c, Finished(After(c, INIT, before), job, txHash, receipt), after)
    requires i < |After(c, INIT, before).executor[job].meeUserOps|
    ensures var ops := After(c, INIT, before).executor[job].meeUserOps;
            var h := ops[i].meeUserOpHash;
            var r := Get(After(c, Finished(After(c, INIT, before), job, txHash, receipt), after).records, h);
            && (r.error.None? <==> VerdictOf(ops, receipt, h).Succeeded? && !EverShownFailed(c, INIT, before, h))
            && (DistinctUserOpHashes(ops) ==>
                  (r.error.None? <==> (receipt.None? || Executed(ops[i], receipt.value.events))
                                      && !EverShownFailed(c, INIT, before, h)))
            && r.txHash == Some(txHash) && r.isConfirmed == Some(true) && r.finished
  {
    hide VerdictOf, Executed, BlockResult, EverShownFailed;
    var s := After(c, INIT, before);
    var ops := s.executor[job].meeUserOps;
    var h := ops[i].meeUserOpHash;
    Conservation.RunKeeps(c, INIT, before);
    Conservation.JobOwnsItsOps(c, s, job);
    assert ops[i] in ops && h in Hashes(ops);
    PendingErrors(c, INIT, before, h);
    FinishedRecord(s.records, ops, txHash, receipt, h);
    Conservation.StepKeeps(c, s, ExecFinish(job, txHash, receipt));
    SettledIsFinal(c, Finished(s, job, txHash, receipt), after, h);
    JobHasDistinctHashes(c, s, job);
    if DistinctUserOpHashes(ops) {
      SucceededIffExecuted(ops, i, receipt);
    }
  }

  lemma JobHasDistinctHashes(c: Config, s: State, job: nat)
    requires Conservation.Inv(c, s) && job in s.executor
    ensures DistinctHashes(s.executor[job].meeUserOps)
  {
    assert Conservation.JobOk(c, s, job);
  }

  /**
   * A run in which an early receipt reports a failure, the block is reorganised, and the final
   * receipt reports success: the record is confirmed and still shows the error.
   */
  lemma {:induction false} EarlyFailureSticks(c: Config, op: MeeUserOp, txHash: nat)
      returns (before: seq<Step>, final: Receipt)
    requires c.attempts > 0 && Packing.BlockGas(c.gas, op) <= c.batchGasLimit
    ensures IsRun(c, INIT, before) && Executed(op, final.events)
    ensures Enabled(c, After(c, INIT, before), ExecFinish(1, txHash, Some(final)))
    ensures var r := Get(Finished(After(c, INIT, before), 1, txHash, Some(final)).records, op.meeUserOpHash);
            r.error.Some? && r.isConfirmed == Some(true)
  {
    hide IsRun, After;
    var early := Receipt(false, [OpEvent(op.userOpHash, false)]);
    final := Receipt(false, [OpEvent(op.userOpHash, true)]);
    before := Conservation.OneJobWaitingIsReached(c, op);
    var s := Conservation.OneJobWaiting(op);
    SucceededIffExecuted([op], 0, Some(early));
    assert early.events[0] in early.events && final.events[0] in final.events;
    Append(c, INIT, before, ExecQuickStatus(1, txHash, early));
    before := before + [ExecQuickStatus(1, txHash, early)];
    var shown := Apply(c, s, ExecQuickStatus(1, txHash, early));
    assert [op][0] in [op];
    assert Get(shown.records, op.meeUserOpHash).error.Some?;
    FinishedRecord(shown.records, [op], txHash, Some(final), op.meeUserOpHash);
  }
}
