/**
 * The simulator's processing of one job, the two steps of a re-enqueue, and why every
 * chain of re-enqueues of an operation comes to an end.
 */
module Simulator {
  import opened UserOps
  import opened Packing
  import opened Records
  import opened Pipeline
  import opened ChainStores

  /** What simulateHandleOp on the account reports. Timestamps are in seconds. */
  datatype Validation =
    | AccountNotDeployed
    | OutOfGas
    | CallFailed
    | Validated(sigFailed: bool, validAfter: nat, validUntil: nat)

  /** What the outside world answers while a job is processed. Clock readings are in milliseconds. */
  datatype Answers = Answers(
    validation: Validation,
    validatedAt: nat,
    executionFails: bool,
    checkedAt: nat,
    executionFailsLater: bool)

  datatype Settings = Settings(safeWindowBeforeExecEnd: nat, traceCallRetryDelay: nat)

  /** How a job ends; a delay is in milliseconds. */
  datatype Outcome =
    | Completed(value: bool)
    | Requeued(delay: nat)
    | Rejected(error: OpError)
    | Unknown

  /** Date.now() as unixTimestamp reads it. */
  function Seconds(ms: nat): nat {
    ms / 1000
  }

  /** The `||` default: a delay that is not set is 0. */
  function RetryDelay(op: MeeUserOp, default: nat): nat {
    if op.executionSimulationRetryDelay != 0 then op.executionSimulationRetryDelay else default
  }

  /** simulateValidation: nothing to report, or the way in which the job ends at once. */
  function ValidationOutcome(op: MeeUserOp, v: Validation, now: nat): Option<Outcome> {
    match v
    case AccountNotDeployed => Some(Requeued(RetryDelay(op, 250)))
    case OutOfGas => Some(Requeued(RetryDelay(op, 250)))
    case CallFailed => Some(Rejected(ValidationFailed))
    case Validated(sigFailed, validAfter, validUntil) =>
      if sigFailed then Some(Rejected(InvalidSignature))
      else if now < validAfter then Some(Requeued((validAfter - now) * 1000))
      else if now > validUntil && validUntil != 0 then Some(Rejected(DeadlineExceeded))
      else None
  }

  /** The processing is the first of an operation that has not been re-enqueued. */
  predicate IsFirst(job: SimJob, attemptsMade: nat) {
    attemptsMade == 0 && !job.isRetryJob
  }

  predicate IsForced(job: SimJob) {
    job.forceExecute && !job.op.isCleanUpUserOp
  }

  /** Too late to simulate again: the end is near for a forced operation, past for any other. */
  predicate TooLate(settings: Settings, job: SimJob, now: int) {
    if IsForced(job) then job.op.upperBoundTimestamp - now <= settings.safeWindowBeforeExecEnd
    else now > job.op.upperBoundTimestamp
  }

  function ExecutionOutcome(settings: Settings, job: SimJob, now: nat, fails: bool): Outcome {
    if TooLate(settings, job, now) then if IsForced(job) then Completed(false) else Rejected(DeadlineExceeded)
    else if fails then Requeued(RetryDelay(job.op, settings.traceCallRetryDelay))
    else Completed(true)
  }

  function JobOutcome(settings: Settings, job: SimJob, attemptsMade: nat, hasQuote: bool, a: Answers): Outcome {
    var validation := ValidationOutcome(job.op, a.validation, Seconds(a.validatedAt));
    if IsFirst(job, attemptsMade) && validation.Some? then validation.value
    else if IsFirst(job, attemptsMade) && !hasQuote then Unknown
    else ExecutionOutcome(settings, job, Seconds(a.checkedAt),
                          if IsFirst(job, attemptsMade) then a.executionFails else a.executionFailsLater)
  }

  // ----- Outcomes by the answers -----

  /** The job is validated: it is not a retry job, and is processed for the first time. */
  predicate IsValidated(job: SimJob, attemptsMade: nat) {
    !job.isRetryJob && attemptsMade == 0
  }

  /** The validation of the account has nothing to object, and the operation is in its own time window. */
  predicate ValidationPasses(a: Answers) {
    && a.validation.Validated? && !a.validation.sigFailed
    && a.validation.validAfter <= a.validatedAt / 1000
    && (a.validation.validUntil == 0 || a.validatedAt / 1000 <= a.validation.validUntil)
  }

  /** Nothing keeps the job from its execution simulation. */
  predicate ReachesExecution(job: SimJob, attemptsMade: nat, hasQuote: bool, a: Answers) {
    IsValidated(job, attemptsMade) ==> ValidationPasses(a) && hasQuote
  }

  /** There is time for another simulation: a forced operation keeps a safe distance to its upper bound. */
  predicate WindowIsOpen(settings: Settings, job: SimJob, a: Answers) {
    if job.forceExecute && !job.op.isCleanUpUserOp
    then a.checkedAt / 1000 + settings.safeWindowBeforeExecEnd < job.op.upperBoundTimestamp
    else a.checkedAt / 1000 <= job.op.upperBoundTimestamp
  }

  /** The simulation made along with the validation counts, and without one that made afterwards. */
  predicate SimulationFails(job: SimJob, attemptsMade: nat, a: Answers) {
    if IsValidated(job, attemptsMade) then a.executionFails else a.executionFailsLater
  }

  /** The operation's own delay, unless it is not set. */
  predicate IsDelay(op: MeeUserOp, default: nat, delay: nat) {
    && (op.executionSimulationRetryDelay > 0 ==> delay == op.executionSimulationRetryDelay)
    && (op.executionSimulationRetryDelay == 0 ==> delay == default)
  }

  /** How a job that is validated ends if the validation has something to object. */
  predicate IsObjection(op: MeeUserOp, a: Answers, outcome: Outcome) {
    var now := a.validatedAt / 1000;
    match a.validation
    case AccountNotDeployed => outcome.Requeued? && IsDelay(op, 250, outcome.delay)
    case OutOfGas => outcome.Requeued? && IsDelay(op, 250, outcome.delay)
    case CallFailed => outcome == Rejected(ValidationFailed)
    case Validated(sigFailed, validAfter, validUntil) =>
      && (sigFailed ==> outcome == Rejected(InvalidSignature))
      && (!sigFailed && now < validAfter ==> outcome == Requeued(1000 * (validAfter - now)))
      && (!sigFailed && validAfter <= now && validUntil != 0 && validUntil < now ==> outcome == Rejected(DeadlineExceeded))
  }

  /** The outcome of a job, by the answers of the validation, of the execution simulation, and of the clock. */
  predicate FollowsAnswers(
      settings: Settings, job: SimJob, attemptsMade: nat, hasQuote: bool, a: Answers, outcome: Outcome)
  {
    var reaches := ReachesExecution(job, attemptsMade, hasQuote, a);
    var open, fails := WindowIsOpen(settings, job, a), SimulationFails(job, attemptsMade, a);
    && (IsValidated(job, attemptsMade) && !ValidationPasses(a) ==> IsObjection(job.op, a, outcome))
    && (outcome == Unknown <==> IsValidated(job, attemptsMade) && ValidationPasses(a) && !hasQuote)
    && (outcome == Completed(true) <==> reaches && open && !fails)
    && (reaches && open && fails ==>
          outcome.Requeued? && IsDelay(job.op, settings.traceCallRetryDelay, outcome.delay))
    && (reaches && !open ==>
          outcome == if job.forceExecute && !job.op.isCleanUpUserOp then Completed(false)
                     else Rejected(DeadlineExceeded))
  }

  /** What an outcome does to the queues and the record. */
  ghost predicate HasEffect(s: State, id: nat, outcome: Outcome, s': State)
    requires id in s.simulator
  {
    var job := s.simulator[id];
    var h := job.op.meeUserOpHash;
    match outcome
    case Completed(_) =>
      s' == s.(simulator := s.simulator - {id}, completed := s.completed[id := job])
    case Requeued(_) =>
      s' == s.(simulator := s.simulator[s.nextJob := SimJob(job.op, job.forceExecute, true)] - {id},
               nextJob := s.nextJob + 1)
    case Rejected(error) =>
      && s' == s.(simulator := s.simulator - {id}, records := s'.records, settled := s.settled + {h})
      && Get(s'.records, h).error == (if Get(s.records, h).error.Some? then Get(s.records, h).error else Some(error))
      && forall g :: g != h ==> Get(s'.records, g) == Get(s.records, g)
    case Unknown => s' == s.(simulator := s.simulator - {id})
  }

  /** The steps by which an outcome reaches the queues; a re-enqueue comes before the failure of the old job. */
  function JobSteps(job: nat, outcome: Outcome): seq<Step> {
    match outcome
    case Completed(_) => [SimComplete(job)]
    case Requeued(_) => [SimRequeue(job), SimLeave(job)]
    case Rejected(error) => [SimFail(job, error)]
    case Unknown => [SimUnknown(job)]
  }

  lemma {:induction false} ValidationByAnswer(op: MeeUserOp, a: Answers)
    ensures var objection := ValidationOutcome(op, a.validation, Seconds(a.validatedAt));
            && (objection.None? <==> ValidationPasses(a))
            && (objection.Some? ==> IsObjection(op, a, objection.value))
            && (objection.Some? ==> objection.value.Requeued? || objection.value.Rejected?)
  {
  }

  lemma {:induction false} OutcomeFollowsAnswers(
      settings: Settings, job: SimJob, attemptsMade: nat, hasQuote: bool, a: Answers)
    ensures FollowsAnswers(settings, job, attemptsMade, hasQuote, a, JobOutcome(settings, job, attemptsMade, hasQuote, a))
  {
    hide ValidationOutcome, ValidationPasses, IsObjection;
    ValidationByAnswer(job.op, a);
  }

  class SimulatorProcessor {
    const store: ChainStore
    const config: Config
    const settings: Settings

    constructor (store: ChainStore, config: Config, settings: Settings)
      ensures this.store == store && this.config == config && this.settings == settings
    {
      this.store, this.config, this.settings := store, config, settings;
    }

    /** The job's outcome has reached the queues and the records by exactly its steps, and nothing else has changed. */
    ghost predicate HasEnded(s: State, id: nat, outcome: Outcome)
      reads store
    {
      IsRun(config, s, JobSteps(id, outcome)) && store.View() == After(config, s, JobSteps(id, outcome))
    }

    ghost predicate IsLive(id: nat)
      reads store
    {
      id in store.simulator && id !in store.spent && id < store.nextJob
    }

    method Fail(id: nat, error: OpError)
      requires IsLive(id)
      modifies store
      ensures HasEnded(old(store.View()), id, Rejected(error))
      ensures HasEffect(old(store.View()), id, Rejected(error), store.View())
    {
      StepsRun(config, store.View(), id, Rejected(error));
      var h := store.simulator[id].op.meeUserOpHash;
      store.records := CreateError(store.records, h, error);
      store.settled := store.settled + {h};
      store.simulator := store.simulator - {id};
    }

    /** Adds the retry job, then lets the old one fail without another attempt. */
    method Requeue(id: nat, delay: nat)
      requires IsLive(id)
      modifies store
      ensures HasEnded(old(store.View()), id, Requeued(delay))
      ensures HasEffect(old(store.View()), id, Requeued(delay), store.View())
    {
      StepsRun(config, store.View(), id, Requeued(delay));
      store.simulator := store.simulator[store.nextJob := store.simulator[id].(isRetryJob := true)];
      store.nextJob := store.nextJob + 1;
      store.simulator := store.simulator - {id};
    }

    /** The queue moves a job that returns a value to the completed ones. */
    method Complete(id: nat, value: bool)
      requires IsLive(id)
      modifies store
      ensures HasEnded(old(store.View()), id, Completed(value))
      ensures HasEffect(old(store.View()), id, Completed(value), store.View())
    {
      StepsRun(config, store.View(), id, Completed(value));
      store.completed := store.completed[id := store.simulator[id]];
      store.simulator := store.simulator - {id};
    }

    /** The job ends with an unrecoverable error, and no record is touched. */
    method FailUnknown(id: nat)
      requires IsLive(id) && store.simulator[id].op.meeUserOpHash !in store.quotes
      modifies store
      ensures HasEnded(old(store.View()), id, Unknown)
      ensures HasEffect(old(store.View()), id, Unknown, store.View())
    {
      StepsRun(config, store.View(), id, Unknown);
      store.simulator := store.simulator - {id};
    }

    method ProcessJob(id: nat, attemptsMade: nat, a: Answers) returns (outcome: Outcome)
      requires IsLive(id)
      modifies store
      ensures outcome == JobOutcome(settings, old(store.simulator)[id], attemptsMade,
                                    old(store.simulator)[id].op.meeUserOpHash in old(store.quotes), a)
      ensures HasEnded(old(store.View()), id, outcome)
      ensures HasEffect(old(store.View()), id, outcome, store.View())
      ensures FollowsAnswers(settings, old(store.simulator)[id], attemptsMade,
                             old(store.simulator)[id].op.meeUserOpHash in old(store.quotes), a, outcome)
    {
      hide HasEnded, HasEffect, ValidationOutcome, FollowsAnswers;
      ghost var hasQuote := store.simulator[id].op.meeUserOpHash in store.quotes;
      OutcomeFollowsAnswers(settings, store.simulator[id], attemptsMade, hasQuote, a);
      ValidationByAnswer(store.simulator[id].op, a);
      var job := store.simulator[id];
      var op := job.op;
      var execSimulationResult: Option<bool> := None;

      if attemptsMade == 0 && !job.isRetryJob {
        var validation := ValidationOutcome(op, a.validation, Seconds(a.validatedAt));
        if validation.Some? {
          outcome := validation.value;
          if outcome.Requeued? {
            Requeue(id, outcome.delay);
          } else {
            Fail(id, outcome.error);
          }
          return;
        }
        if op.meeUserOpHash !in store.quotes {
          FailUnknown(id);
          outcome := Unknown;
          return;
        }
        execSimulationResult := Some(a.executionFails);
      }

      var now := Seconds(a.checkedAt);
      if job.forceExecute && !op.isCleanUpUserOp {
        if op.upperBoundTimestamp - now <= settings.safeWindowBeforeExecEnd {
          Complete(id, false);
          outcome := Completed(false);
          return;
        }
      } else {
        if now > op.upperBoundTimestamp {
          Fail(id, DeadlineExceeded);
          outcome := Rejected(DeadlineExceeded);
          return;
        }
      }

      if execSimulationResult.None? {
        execSimulationResult := Some(a.executionFailsLater);
      }
      if execSimulationResult.value {
        outcome := Requeued(RetryDelay(op, settings.traceCallRetryDelay));
        Requeue(id, outcome.delay);
      } else {
        Complete(id, true);
        outcome := Completed(true);
      }
    }
  }

  /** The steps of an outcome, spelled out. */
  lemma StepsRun(c: Config, s: State, id: nat, outcome: Outcome)
    requires id in s.simulator && id !in s.spent && id < s.nextJob
    requires outcome.Unknown? ==> s.simulator[id].op.meeUserOpHash !in s.quotes
    ensures IsRun(c, s, JobSteps(id, outcome))
    ensures After(c, s, JobSteps(id, outcome)) == match outcome
      case Completed(_) => Pipeline.Simulated(s, id)
      case Requeued(_) =>
        s.(simulator := s.simulator[s.nextJob := s.simulator[id].(isRetryJob := true)] - {id}, nextJob := s.nextJob + 1)
      case Rejected(error) => FailedInSimulation(s, id, error)
      case Unknown => s.(simulator := s.simulator - {id})
  {
    if outcome.Requeued? {
      var s' := Apply(c, s, SimRequeue(id));
      assert JobSteps(id, outcome)[1..] == [SimLeave(id)];
      assert [SimLeave(id)][1..] == [];
      assert After(c, s', [SimLeave(id)]) == Apply(c, s', SimLeave(id));
      assert Apply(c, s', SimLeave(id)).spent == s.spent;
      assert After(c, s, JobSteps(id, outcome)) == Apply(c, s', SimLeave(id));
    } else {
      assert JobSteps(id, outcome)[1..] == [];
    }
  }

  // ----- Re-enqueues over whole runs -----

  /** The step re-enqueues an operation with hash h from its own job, not from a retry job. */
  predicate IsFirstRequeue(s: State, step: Step, h: nat) {
    && step.SimRequeue? && step.job in s.simulator
    && !s.simulator[step.job].isRetryJob && s.simulator[step.job].op.meeUserOpHash == h
  }

  ghost function FirstRequeues(c: Config, s: State, steps: seq<Step>, h: nat): nat
    requires IsRun(c, s, steps)
    decreases |steps|
  {
    if steps == [] then 0
    else (if IsFirstRequeue(s, steps[0], h) then 1 else 0) + FirstRequeues(c, Apply(c, s, steps[0]), steps[1..], h)
  }

  predicate IsOwnJob(s: State, job: nat, h: nat) {
    job in s.simulator && !s.simulator[job].isRetryJob && s.simulator[job].op.meeUserOpHash == h
  }

  /** Every operation has at most one simulator job of its own, and none before it is accepted. */
  ghost predicate OneOwnJob(s: State, h: nat) {
    && (forall job :: job in s.simulator ==> job < s.nextJob)
    && (forall job :: IsOwnJob(s, job, h) ==> h in s.accepted)
    && (forall job, other :: IsOwnJob(s, job, h) && IsOwnJob(s, other, h) ==> job == other)
  }

  /** The operation can still be re-enqueued from its own job. */
  ghost predicate CanStart(s: State, h: nat) {
    h !in s.accepted || exists job :: IsOwnJob(s, job, h) && job !in s.spent
  }

  /** What a step does to the simulator queue: the only new job is the next one, and nothing is unspent. */
  ghost predicate QueueChange(s: State, step: Step, s': State) {
    && s.nextJob <= s'.nextJob && s.accepted <= s'.accepted
    && (step.Accept? || step.SimRequeue? ==> s.nextJob < s'.nextJob)
    && (step.SimRequeue? ==> step.job in s.simulator && step.job in s'.spent && s'.accepted == s.accepted)
    && (step.Accept? ==> step.op.meeUserOpHash !in s.accepted && s'.accepted == s.accepted + {step.op.meeUserOpHash})
    && forall job :: job in s'.simulator ==>
         || (job in s.simulator && s'.simulator[job] == s.simulator[job] && (job in s.spent ==> job in s'.spent))
         || (job == s.nextJob && step.Accept? && s'.simulator[job].op == step.op)
         || (job == s.nextJob && step.SimRequeue? && s'.simulator[job] == s.simulator[step.job].(isRetryJob := true))
  }

  lemma {:induction false} StepChangesQueue(c: Config, s: State, step: Step)
    requires Enabled(c, s, step)
    ensures QueueChange(s, step, Apply(c, s, step))
  {
    hide IsNextFit, BlockResult, FailAll, CreateError, CreateErrors, Keep, SnapshotOps, Contents, Oversized;
  }

  lemma {:induction false} OwnJobsChange(s: State, step: Step, s': State, h: nat)
    requires QueueChange(s, step, s')
    ensures forall job :: IsOwnJob(s', job, h) ==>
              || (IsOwnJob(s, job, h) && (job in s.spent ==> job in s'.spent))
              || (job == s.nextJob && step.Accept? && step.op.meeUserOpHash == h)
  {
  }

  lemma {:induction false} OneOwnJobStays(s: State, step: Step, s': State, h: nat)
    requires OneOwnJob(s, h) && QueueChange(s, step, s')
    ensures OneOwnJob(s', h)
  {
    OwnJobsChange(s, step, s', h);
    hide IsOwnJob;
    assert forall job :: job in s'.simulator ==> job < s'.nextJob;
  }

  lemma {:induction false} StartsOnce(s: State, step: Step, s': State, h: nat)
    requires OneOwnJob(s, h) && QueueChange(s, step, s')
    requires IsFirstRequeue(s, step, h) ==> step.job !in s.spent
    ensures CanStart(s', h) ==> CanStart(s, h)
    ensures IsFirstRequeue(s, step, h) ==> CanStart(s, h) && !CanStart(s', h)
  {
    OwnJobsChange(s, step, s', h);
    if IsFirstRequeue(s, step, h) {
      assert IsOwnJob(s, step.job, h);
    }
    if h in s.accepted && CanStart(s', h) {
      var job :| IsOwnJob(s', job, h) && job !in s'.spent;
      assert IsOwnJob(s, job, h) && job !in s.spent;
    }
  }

  lemma {:induction false} StepStarts(c: Config, s: State, step: Step, h: nat)
    requires OneOwnJob(s, h) && Enabled(c, s, step)
    ensures OneOwnJob(Apply(c, s, step), h)
    ensures CanStart(Apply(c, s, step), h) ==> CanStart(s, h)
    ensures IsFirstRequeue(s, step, h) ==> CanStart(s, h) && !CanStart(Apply(c, s, step), h)
  {
    StepChangesQueue(c, s, step);
    assert IsFirstRequeue(s, step, h) ==> step.job !in s.spent;
    hide *;
    OneOwnJobStays(s, step, Apply(c, s, step), h);
    StartsOnce(s, step, Apply(c, s, step), h);
  }

  lemma {:induction false} StartsAtMostOnce(c: Config, s: State, steps: seq<Step>, h: nat)
    requires OneOwnJob(s, h) && IsRun(c, s, steps)
    ensures FirstRequeues(c, s, steps, h) <= if CanStart(s, h) then 1 else 0
    decreases |steps|
  {
    hide OneOwnJob, CanStart, Enabled, Apply, IsFirstRequeue;
    if steps != [] {
      StepStarts(c, s, steps[0], h);
      StartsAtMostOnce(c, Apply(c, s, steps[0]), steps[1..], h);
    }
  }

  /** In every run, an operation is re-enqueued at most once from a job that validates it. */
  lemma {:induction false} ValidationRequeuesAtMostOnce(c: Config, steps: seq<Step>, h: nat)
    requires IsRun(c, INIT, steps)
    ensures FirstRequeues(c, INIT, steps, h) <= 1
  {
    StartsAtMostOnce(c, INIT, steps, h);
  }

  /** A job that has been added is changed by no later step. */
  lemma {:induction false} JobsStay(c: Config, s: State, steps: seq<Step>, job: nat)
    requires IsRun(c, s, steps) && job < s.nextJob && job in After(c, s, steps).simulator
    ensures job in s.simulator && After(c, s, steps).simulator[job] == s.simulator[job]
    decreases |steps|
  {
    if steps != [] {
      StepChangesQueue(c, s, steps[0]);
      hide Apply, Enabled;
      JobsStay(c, Apply(c, s, steps[0]), steps[1..], job);
    }
  }

  /**
   * In every run, a job that a re-enqueue has added is a retry job for as long as it is in the
   * queue; its outcome is the same whatever the validation and the simulation made along with it say.
   */
  lemma {:induction false} RequeuedJobsSkipValidation(
      c: Config, before: seq<Step>, job: nat, after: seq<Step>, settings: Settings, attemptsMade: nat, hasQuote: bool,
      a: Answers, v: Validation, at: nat, fails: bool)
    requires IsRun(c, INIT, before) && Enabled(c, After(c, INIT, before), SimRequeue(job))
    requires IsRun(c, Apply(c, After(c, INIT, before), SimRequeue(job)), after)
    requires var s := After(c, INIT, before);
             s.nextJob in After(c, Apply(c, s, SimRequeue(job)), after).simulator
    ensures var s := After(c, INIT, before);
            var retry := After(c, Apply(c, s, SimRequeue(job)), after).simulator[s.nextJob];
            var outcome := JobOutcome(settings, retry, attemptsMade, hasQuote, a);
            && retry == s.simulator[job].(isRetryJob := true)
            && FollowsAnswers(settings, retry, attemptsMade, hasQuote, a, outcome)
            && JobOutcome(settings, retry, attemptsMade, !hasQuote,
                          a.(validation := v, validatedAt := at, executionFails := fails)) == outcome
  {
    hide ExecutionOutcome, ValidationOutcome, FollowsAnswers;
    OutcomeFollowsAnswers(settings, After(c, INIT, before).simulator[job].(isRetryJob := true), attemptsMade, hasQuote, a);
    var s := After(c, INIT, before);
    JobsStay(c, Apply(c, s, SimRequeue(job)), after, s.nextJob);
  }

  // ----- Chains of re-enqueues -----

  /** One processing of an operation in its chain of simulator jobs. */
  datatype Visit = Visit(at: nat, answers: Answers)

  function VisitOutcome(settings: Settings, job: SimJob, visits: seq<Visit>, k: nat): Outcome
    requires k < |visits|
  {
    JobOutcome(settings, job.(isRetryJob := k > 0), 0, true, visits[k].answers)
  }

  /**
   * A chain: the operation's own job first, retry jobs afterwards, each of them added by
   * the one before and not started until its delay has passed.
   */
  ghost predicate IsChain(settings: Settings, job: SimJob, visits: seq<Visit>) {
    && (forall k :: 0 <= k < |visits| ==>
          visits[k].at <= visits[k].answers.validatedAt <= visits[k].answers.checkedAt)
    && (forall k :: 0 <= k < |visits| - 1 ==> Follows(settings, job, visits, k))
  }

  ghost predicate Follows(settings: Settings, job: SimJob, visits: seq<Visit>, k: nat)
    requires k + 1 < |visits|
  {
    && VisitOutcome(settings, job, visits, k).Requeued?
    && visits[k].answers.checkedAt + VisitOutcome(settings, job, visits, k).delay <= visits[k + 1].at
  }

  /** The last second at which an execution simulation may still re-enqueue. */
  function LastChance(settings: Settings, job: SimJob): int {
    if IsForced(job) then job.op.upperBoundTimestamp - settings.safeWindowBeforeExecEnd - 1
    else job.op.upperBoundTimestamp
  }

  /** The retries are at least one delay apart. */
  lemma {:induction false} RetriesTakeTime(settings: Settings, job: SimJob, visits: seq<Visit>, k: nat, d: nat)
    requires IsChain(settings, job, visits) && 0 < k < |visits|
    requires d == RetryDelay(job.op, settings.traceCallRetryDelay)
    ensures visits[k].at >= visits[1].at + (k - 1) * d
  {
    if k == 1 {
    } else {
      RetriesTakeTime(settings, job, visits, k - 1, d);
      assert Follows(settings, job, visits, k - 1);
      assert (k - 1) * d == (k - 2) * d + d;
    }
  }

  /** A retry re-enqueues only while its window is open. */
  lemma RetryWithinWindow(settings: Settings, job: SimJob, visits: seq<Visit>, k: nat)
    requires IsChain(settings, job, visits) && 0 < k < |visits| - 1
    ensures visits[k].at < (LastChance(settings, job) + 1) * 1000
  {
    assert Follows(settings, job, visits, k);
    var now := visits[k].answers.checkedAt;
    assert now / 1000 <= LastChance(settings, job);
    assert now < (now / 1000 + 1) * 1000;
  }

  /**
   * Every chain of re-enqueues ends: with a positive delay d there are at most one re-enqueue of
   * the operation's own job, and one per d milliseconds from the first retry to the deadline.
   */
  lemma ChainsAreBounded(settings: Settings, job: SimJob, visits: seq<Visit>, d: nat)
    requires IsChain(settings, job, visits)
    requires d == RetryDelay(job.op, settings.traceCallRetryDelay) && d > 0
    ensures |visits| > 2 ==> visits[1].at + (|visits| - 3) * d < (LastChance(settings, job) + 1) * 1000
  {
    if |visits| > 2 {
      var k := |visits| - 2;
      RetriesTakeTime(settings, job, visits, k, d);
      RetryWithinWindow(settings, job, visits, k);
    }
  }

  /** With a delay of 0 nothing stops a chain: there is one of every length for an open window. */
  lemma ZeroDelayNeverEnds(settings: Settings, job: SimJob, n: nat) returns (visits: seq<Visit>)
    requires RetryDelay(job.op, settings.traceCallRetryDelay) == 0 && LastChance(settings, job) >= 0
    ensures |visits| == n && IsChain(settings, job, visits)
  {
    var a := Answers(Validated(false, 0, 0), 0, true, 0, true);
    visits := seq(n, _ => Visit(0, a));
    forall k | 0 <= k < |visits| - 1 ensures Follows(settings, job, visits, k) {
      assert VisitOutcome(settings, job, visits, k) == Requeued(0);
    }
  }

  /** A retry that finds its window closed is the last: it fails the operation or, for a forced one, hands it on unsimulated. */
  lemma {:induction false} ChainsEndTooLate(settings: Settings, job: SimJob, visits: seq<Visit>, k: nat)
    requires IsChain(settings, job, visits) && 0 < k < |visits|
    requires Seconds(visits[k].answers.checkedAt) > LastChance(settings, job)
    ensures k == |visits| - 1
    ensures VisitOutcome(settings, job, visits, k) ==
            if IsForced(job) then Completed(false) else Rejected(DeadlineExceeded)
  {
    assert k < |visits| - 1 ==> Follows(settings, job, visits, k);
  }
}
