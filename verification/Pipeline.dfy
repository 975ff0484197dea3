/**
 * The life of user operations on one chain: the simulator queue, the completed
 * simulations, the executor queue and the records, and every step by which one of the
 * three actors changes them. A step is what an actor does between two awaits that other
 * actors can interleave with; what the outside world answers is a parameter of the step.
 */
module Pipeline {
  import opened UserOps
  import opened Packing
  import opened Records

  datatype SimJob = SimJob(op: MeeUserOp, forceExecute: bool, isRetryJob: bool)

  datatype ExecJob = ExecJob(meeUserOps: seq<MeeUserOp>, attemptsMade: nat, previousTxHash: Option<nat>)

  /** Where the batcher's single running pass is. */
  datatype Pass = Idle | Fetched(jobs: seq<nat>) | Added(jobs: seq<nat>)

  datatype Config = Config(gas: GasConfig, batchGasLimit: nat, attempts: nat)

  /**
   * `accepted` and `settled` are history: the hashes handed to the simulator so far, and
   * those whose final outcome an actor has recorded. `spent` holds simulator jobs that
   * have re-enqueued their operation and are about to fail; `splitting` holds executor
   * jobs that have handed their valid operations to new jobs and keep the given rest.
   */
  datatype State = State(
    quotes: set<nat>,
    simulator: map<nat, SimJob>,
    completed: map<nat, SimJob>,
    executor: map<nat, ExecJob>,
    nextJob: nat,
    spent: set<nat>,
    splitting: map<nat, seq<MeeUserOp>>,
    pass: Pass,
    records: map<nat, Record>,
    accepted: set<nat>,
    settled: set<nat>)

  const INIT := State({}, map[], map[], map[], 0, {}, map[], Idle, map[], {}, {})

  datatype Step =
    | Accept(op: MeeUserOp, force: bool)
    | SimComplete(job: nat)
    | SimFail(job: nat, error: OpError)
    | SimUnknown(job: nat)
    | SimRequeue(job: nat)
    | SimLeave(job: nat)
    | PassFetch(jobs: seq<nat>)
    | PassAdd(batches: seq<Batch>)
    | PassRemove
    | ExecDropExpired(job: nat, now: int)
    | ExecNoteTx(job: nat, previous: Option<nat>)
    | ExecQuickStatus(job: nat, txHash: nat, seen: Receipt)
    | ExecFinish(job: nat, txHash: nat, receipt: Option<Receipt>)
    | ExecThrow(job: nat, unrecoverable: bool)
    | ExecSplit(job: nat, valid: set<nat>)
    | ExecSplitEnd(job: nat)

  // ----- Lists of operations -----

  function Keep(ops: seq<MeeUserOp>, hashes: set<nat>): (kept: seq<MeeUserOp>)
    ensures forall op :: op in kept <==> op in ops && op.meeUserOpHash in hashes
    ensures DistinctHashes(ops) ==> DistinctHashes(kept)
  {
    if ops == [] then []
    else
      var rest := Keep(ops[1..], hashes);
      assert forall op :: op in ops <==> op == ops[0] || op in ops[1..];
      assert DistinctHashes(ops) ==> DistinctHashes(ops[1..]) by {
        assert forall i :: 0 <= i < |ops| - 1 ==> ops[1..][i] == ops[i + 1];
      }
      if ops[0].meeUserOpHash in hashes then [ops[0]] + rest else rest
  }

  function Unexpired(ops: seq<MeeUserOp>, now: int): set<nat> {
    set op | op in ops && now <= op.upperBoundTimestamp :: op.meeUserOpHash
  }

  function SnapshotOps(s: State, jobs: seq<nat>): (ops: seq<MeeUserOp>)
    requires forall i :: 0 <= i < |jobs| ==> jobs[i] in s.completed
    ensures |ops| == |jobs|
  {
    seq(|jobs|, i requires 0 <= i < |jobs| => s.completed[jobs[i]].op)
  }

  /** Fresh executor jobs, one per list, under consecutive ids. */
  function AddJobs(s: State, lists: seq<seq<MeeUserOp>>): State {
    s.(executor := map job | job in s.executor.Keys + NewJobs(s, lists) ::
                     if job in NewJobs(s, lists) then ExecJob(lists[job - s.nextJob], 0, None) else s.executor[job],
       nextJob := s.nextJob + |lists|)
  }

  function NewJobs(s: State, lists: seq<seq<MeeUserOp>>): (jobs: set<nat>)
    ensures forall job: nat :: job in jobs <==> s.nextJob <= job < s.nextJob + |lists|
  {
    Range(s.nextJob, |lists|)
  }

  lemma AddNoJobs(s: State)
    ensures AddJobs(s, []).executor == s.executor
  {
  }

  lemma AddJobsSnoc(s: State, lists: seq<seq<MeeUserOp>>, last: seq<MeeUserOp>)
    ensures AddJobs(s, lists + [last]).executor ==
            AddJobs(s, lists).executor[s.nextJob + |lists| := ExecJob(last, 0, None)]
  {
    assert NewJobs(s, lists + [last]) == NewJobs(s, lists) + {s.nextJob + |lists|};
  }

  function Range(first: nat, count: nat): (ids: set<nat>)
    ensures forall id: nat :: id in ids <==> first <= id < first + count
  {
    if count == 0 then {} else Range(first, count - 1) + {first + count - 1}
  }

  // ----- Steps -----

  ghost predicate Enabled(c: Config, s: State, step: Step) {
    match step
    case Accept(op, _) => op.meeUserOpHash !in s.accepted
    case SimComplete(job) => job in s.simulator && job !in s.spent
    case SimFail(job, _) => job in s.simulator && job !in s.spent
    case SimUnknown(job) =>
      job in s.simulator && job !in s.spent && s.simulator[job].op.meeUserOpHash !in s.quotes
    case SimRequeue(job) => job in s.simulator && job !in s.spent
    case SimLeave(job) => job in s.simulator && job in s.spent
    case PassFetch(jobs) =>
      && s.pass.Idle?
      && (forall i, j :: 0 <= i < j < |jobs| ==> jobs[i] != jobs[j])
      && (forall job :: job in jobs <==> job in s.completed)
    case PassAdd(batches) =>
      && s.pass.Fetched?
      && (forall i :: 0 <= i < |s.pass.jobs| ==> s.pass.jobs[i] in s.completed)
      && IsNextFit(c.gas, c.batchGasLimit,
                   Admitted(c.gas, c.batchGasLimit, SnapshotOps(s, s.pass.jobs)), batches)
    case PassRemove => s.pass.Added?
    case ExecSplit(job, _) => job in s.executor
    case ExecSplitEnd(job) => job in s.executor && job in s.splitting
    case _ => step.job in s.executor && step.job !in s.splitting
  }

  ghost function Apply(c: Config, s: State, step: Step): State
    requires Enabled(c, s, step)
  {
    match step
    case Accept(op, force) => Accepted(s, op, force)
    case SimComplete(job) => Simulated(s, job)
    case SimFail(job, error) => FailedInSimulation(s, job, error)
    case SimUnknown(job) => s.(simulator := s.simulator - {job})
    case SimRequeue(job) => Requeued(s, job)
    case SimLeave(job) => s.(simulator := s.simulator - {job}, spent := s.spent - {job})
    case PassFetch(jobs) => if jobs == [] then s else s.(pass := Fetched(jobs))
    case PassAdd(batches) => Batched(c, s, batches)
    case PassRemove => s.(completed := s.completed - (set job | job in s.pass.jobs), pass := Idle)
    case ExecDropExpired(job, now) => Dropped(s, job, now)
    case ExecNoteTx(job, previous) =>
      s.(executor := s.executor[job := s.executor[job].(previousTxHash := previous)])
    case ExecQuickStatus(job, txHash, seen) =>
      s.(records := BlockResult(s.records, s.executor[job].meeUserOps, txHash, Some(seen), false))
    case ExecFinish(job, txHash, receipt) => Finished(s, job, txHash, receipt)
    case ExecThrow(job, unrecoverable) => Thrown(c, s, job, unrecoverable)
    case ExecSplit(job, valid) => SplitOff(s, job, valid)
    case ExecSplitEnd(job) => SplitEnded(s, job)
  }

  /** The API stores the quote before it hands the operation to the simulator. */
  function Accepted(s: State, op: MeeUserOp, force: bool): State {
    s.(quotes := s.quotes + {op.meeUserOpHash},
       simulator := s.simulator[s.nextJob := SimJob(op, force, false)],
       nextJob := s.nextJob + 1,
       accepted := s.accepted + {op.meeUserOpHash})
  }

  function Simulated(s: State, job: nat): State
    requires job in s.simulator
  {
    s.(simulator := s.simulator - {job}, completed := s.completed[job := s.simulator[job]])
  }

  function FailedInSimulation(s: State, job: nat, error: OpError): State
    requires job in s.simulator
  {
    var h := s.simulator[job].op.meeUserOpHash;
    s.(simulator := s.simulator - {job},
       records := CreateError(s.records, h, error),
       settled := s.settled + {h})
  }

  function Requeued(s: State, job: nat): State
    requires job in s.simulator
  {
    s.(simulator := s.simulator[s.nextJob := s.simulator[job].(isRetryJob := true)],
       nextJob := s.nextJob + 1,
       spent := s.spent + {job})
  }

  function Batched(c: Config, s: State, batches: seq<Batch>): State
    requires s.pass.Fetched?
    requires forall i :: 0 <= i < |s.pass.jobs| ==> s.pass.jobs[i] in s.completed
  {
    var skipped := Oversized(c.gas, c.batchGasLimit, SnapshotOps(s, s.pass.jobs));
    AddJobs(s, Contents(batches)).(
      pass := Added(s.pass.jobs),
      records := CreateErrors(s.records, skipped, InvalidMaxGasLimit),
      settled := s.settled + Hashes(skipped))
  }

  function Dropped(s: State, job: nat, now: int): State
    requires job in s.executor
  {
    var ops := s.executor[job].meeUserOps;
    var expired := Hashes(ops) - Unexpired(ops, now);
    s.(executor := s.executor[job := s.executor[job].(meeUserOps := Keep(ops, Unexpired(ops, now)))],
       records := FailAll(s.records, expired, DeadlineExceeded),
       settled := s.settled + expired)
  }

  function Finished(s: State, job: nat, txHash: nat, receipt: Option<Receipt>): State
    requires job in s.executor
  {
    var ops := s.executor[job].meeUserOps;
    s.(executor := s.executor - {job},
       records := BlockResult(s.records, ops, txHash, receipt, true),
       settled := s.settled + Hashes(ops))
  }

  function Thrown(c: Config, s: State, job: nat, unrecoverable: bool): State
    requires job in s.executor
  {
    var data := s.executor[job];
    var failed := if IsLastAttempt(c, data, unrecoverable) then Hashes(data.meeUserOps) else {};
    s.(executor := if IsRetried(c, data, unrecoverable)
                   then s.executor[job := data.(attemptsMade := data.attemptsMade + 1)]
                   else s.executor - {job},
       records := FailAll(s.records, failed, ExecutionFailed),
       settled := s.settled + failed)
  }

  /** The operations that a job still answers for: all of its own, less those it has handed to new jobs. */
  function Held(s: State, job: nat): seq<MeeUserOp>
    requires job in s.executor
  {
    if job in s.splitting then s.splitting[job] else s.executor[job].meeUserOps
  }

  /**
   * The given operations, of those that the job still holds, go to a new job; the data of the
   * job itself stays as it is. With separate blocks this happens once for each operation.
   */
  function SplitOff(s: State, job: nat, valid: set<nat>): State
    requires job in s.executor
  {
    var held := Held(s, job);
    AddJobs(s, NewBlock(Keep(held, valid))).(splitting := s.splitting[job := Keep(held, Hashes(held) - valid)])
  }

  function SplitEnded(s: State, job: nat): State
    requires job in s.executor && job in s.splitting
  {
    var faulty := Hashes(s.splitting[job]);
    s.(executor := s.executor - {job},
       splitting := s.splitting - {job},
       records := FailAll(s.records, faulty, Reverted),
       settled := s.settled + faulty)
  }

  /** The processor's own test for the final failure. */
  predicate IsLastAttempt(c: Config, data: ExecJob, unrecoverable: bool) {
    data.attemptsMade == c.attempts - 1 || unrecoverable
  }

  /** The queue's test for another attempt. */
  predicate IsRetried(c: Config, data: ExecJob, unrecoverable: bool) {
    !unrecoverable && data.attemptsMade + 1 < c.attempts
  }

  function CreateErrors(records: map<nat, Record>, ops: seq<MeeUserOp>, error: OpError): map<nat, Record> {
    if ops == [] then records
    else CreateError(CreateErrors(records, ops[..|ops| - 1], error), ops[|ops| - 1].meeUserOpHash, error)
  }

  /** No block is made of nothing. */
  function NewBlock(ops: seq<MeeUserOp>): seq<seq<MeeUserOp>> {
    if ops == [] then [] else [ops]
  }

  // ----- Runs -----

  ghost predicate IsRun(c: Config, s: State, steps: seq<Step>)
    decreases |steps|
  {
    steps == [] || (Enabled(c, s, steps[0]) && IsRun(c, Apply(c, s, steps[0]), steps[1..]))
  }

  ghost function After(c: Config, s: State, steps: seq<Step>): State
    requires IsRun(c, s, steps)
    decreases |steps|
  {
    if steps == [] then s else After(c, Apply(c, s, steps[0]), steps[1..])
  }

  lemma Prepend(c: Config, s: State, step: Step, steps: seq<Step>) returns (longer: seq<Step>)
    requires Enabled(c, s, step) && IsRun(c, Apply(c, s, step), steps)
    ensures IsRun(c, s, longer) && After(c, s, longer) == After(c, Apply(c, s, step), steps)
  {
    longer := [step] + steps;
    assert longer[1..] == steps;
  }

  lemma {:induction false} Append(c: Config, s: State, steps: seq<Step>, step: Step)
    requires IsRun(c, s, steps) && Enabled(c, After(c, s, steps), step)
    ensures IsRun(c, s, steps + [step])
    ensures After(c, s, steps + [step]) == Apply(c, After(c, s, steps), step)
    decreases |steps|
  {
    if steps == [] {
      assert steps + [step] == [step];
    } else {
      Append(c, Apply(c, s, steps[0]), steps[1..], step);
      assert (steps + [step])[1..] == steps[1..] + [step];
    }
  }
}
