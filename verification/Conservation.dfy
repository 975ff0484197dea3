/**
 * No user operation is lost and none is owned twice: in every state that any interleaving
 * of the three actors can reach, each accepted operation is in exactly one place.
 */
module Conservation {
  import opened UserOps
  import opened Packing
  import opened Records
  import opened Pipeline

  datatype Place = Simulating(job: nat) | Simulated(job: nat) | Executing(job: nat) | Settled

  /** Hash h appears at p, counting jobs that have already handed it on. */
  ghost predicate Appears(s: State, p: Place, h: nat) {
    match p
    case Simulating(job) => job in s.simulator && s.simulator[job].op.meeUserOpHash == h
    case Simulated(job) => job in s.completed && s.completed[job].op.meeUserOpHash == h
    case Executing(job) => job in s.executor && h in Hashes(s.executor[job].meeUserOps)
    case Settled => h in s.settled
  }

  /** The place where hash h appears has handed it on and will not act on it again. */
  ghost predicate IsStale(s: State, p: Place, h: nat) {
    match p
    case Simulating(job) => job in s.spent
    case Simulated(job) => s.pass.Added? && job in s.pass.jobs
    case Executing(job) => job in s.splitting && h !in Hashes(s.splitting[job])
    case Settled => false
  }

  ghost predicate Owns(s: State, p: Place, h: nat) {
    Appears(s, p, h) && !IsStale(s, p, h)
  }

  ghost predicate OwnedOnce(s: State, h: nat) {
    && (exists p :: Owns(s, p, h))
    && forall p, q :: Owns(s, p, h) && Owns(s, q, h) ==> p == q
  }

  ghost predicate Exact(s: State) {
    && (forall h :: h in s.accepted ==> OwnedOnce(s, h))
    && forall p, h :: Appears(s, p, h) ==> h in s.accepted
  }

  /** Facts about the containers that the ownership argument relies on. */
  ghost predicate WellFormed(c: Config, s: State) {
    && (forall job :: job in s.simulator || job in s.completed || job in s.executor ==> job < s.nextJob)
    && (forall job :: job in s.simulator ==> job !in s.completed)
    && s.spent <= s.simulator.Keys
    && s.splitting.Keys <= s.executor.Keys
    && s.accepted <= s.quotes
    && (!s.pass.Idle? ==> forall job :: job in s.pass.jobs ==> job in s.completed)
    && (!s.pass.Idle? ==> forall i, j :: 0 <= i < j < |s.pass.jobs| ==> s.pass.jobs[i] != s.pass.jobs[j])
    && (forall job :: job in s.executor ==> JobOk(c, s, job))
    && (forall h :: h in s.settled ==> HasOutcome(s.records, h))
  }

  ghost predicate JobOk(c: Config, s: State, job: nat)
    requires job in s.executor
  {
    && DistinctHashes(s.executor[job].meeUserOps)
    && s.executor[job].attemptsMade < c.attempts
    && (job in s.splitting ==>
          && DistinctHashes(s.splitting[job])
          && forall op :: op in s.splitting[job] ==> op in s.executor[job].meeUserOps)
  }

  /** An outcome that the explorer can show: an error, or a confirmed inclusion. */
  predicate HasOutcome(records: map<nat, Record>, h: nat) {
    h in records && (records[h].error.Some? || records[h].isConfirmed == Some(true))
  }

  ghost predicate Inv(c: Config, s: State) {
    WellFormed(c, s) && Exact(s)
  }

  // ----- Disjoint lists -----

  /** The lists are free of repetitions, share no hash, and together have exactly the given hashes. */
  ghost predicate Partition(lists: seq<seq<MeeUserOp>>, hashes: set<nat>) {
    && (forall i :: 0 <= i < |lists| ==> DistinctHashes(lists[i]))
    && (forall i, j, h :: 0 <= i < |lists| && 0 <= j < |lists| && h in Hashes(lists[i]) && h in Hashes(lists[j]) ==> i == j)
    && (forall h :: h in hashes <==> exists i :: 0 <= i < |lists| && h in Hashes(lists[i]))
  }

  lemma HashesAt(ops: seq<MeeUserOp>, h: nat) returns (i: nat)
    requires h in Hashes(ops)
    ensures i < |ops| && ops[i].meeUserOpHash == h
  {
    var op :| op in ops && op.meeUserOpHash == h;
    i :| 0 <= i < |ops| && ops[i] == op;
  }

  lemma DistinctHalves(a: seq<MeeUserOp>, b: seq<MeeUserOp>)
    requires DistinctHashes(a + b)
    ensures DistinctHashes(a) && DistinctHashes(b) && Hashes(a) !! Hashes(b)
  {
    assert forall i :: 0 <= i < |a| ==> (a + b)[i] == a[i];
    assert forall i :: 0 <= i < |b| ==> (a + b)[|a| + i] == b[i];
  }

  lemma {:induction false} ConcatPartition(parts: seq<seq<MeeUserOp>>)
    requires DistinctHashes(Concat(parts))
    ensures Partition(parts, Hashes(Concat(parts)))
  {
    if parts == [] {
    } else {
      var front, last := parts[..|parts| - 1], parts[|parts| - 1];
      var a := Concat(front);
      assert Concat(parts) == a + last;
      DistinctHalves(a, last);
      ConcatPartition(front);
      ExtendPartition(front, last, Hashes(a));
      assert Hashes(a + last) == Hashes(a) + Hashes(last);
      assert parts == front + [last];
    }
  }

  lemma ExtendPartition(lists: seq<seq<MeeUserOp>>, last: seq<MeeUserOp>, hashes: set<nat>)
    requires Partition(lists, hashes) && DistinctHashes(last) && hashes !! Hashes(last)
    ensures Partition(lists + [last], hashes + Hashes(last))
  {
    var all := lists + [last];
    forall h ensures h in hashes + Hashes(last) <==> exists i :: 0 <= i < |all| && h in Hashes(all[i]) {
      if h in hashes {
        var i :| 0 <= i < |lists| && h in Hashes(lists[i]);
        assert h in Hashes(all[i]);
      }
      if h in Hashes(last) {
        assert h in Hashes(all[|lists|]);
      }
    }
  }

  lemma BlockPartition(ops: seq<MeeUserOp>)
    requires DistinctHashes(ops)
    ensures Partition(NewBlock(ops), Hashes(ops))
  {
    var lists := NewBlock(ops);
    forall h ensures h in Hashes(ops) <==> exists i :: 0 <= i < |lists| && h in Hashes(lists[i]) {
      if h in Hashes(ops) {
        var i := HashesAt(ops, h);
        assert h in Hashes(lists[0]);
      }
    }
  }

  lemma {:induction false} AdmittedDistinct(gas: GasConfig, cap: nat, ops: seq<MeeUserOp>)
    requires DistinctHashes(ops)
    ensures DistinctHashes(Admitted(gas, cap, ops))
  {
    if ops == [] {
    } else {
      var front, last := ops[..|ops| - 1], ops[|ops| - 1];
      AdmittedDistinct(gas, cap, front);
      PackingSortsByGas(gas, cap, front);
      var kept := Admitted(gas, cap, front);
      forall i | 0 <= i < |kept| ensures kept[i].meeUserOpHash != last.meeUserOpHash {
        assert kept[i] in front;
      }
    }
  }

  // ----- One step -----

  /** Ownership is exact again if only the moved hashes changed hands and each has one new owner. */
  lemma Transfer(s: State, s': State, moved: set<nat>)
    requires Exact(s) && s'.accepted == s.accepted + moved
    requires forall p, h :: h !in moved ==> (Owns(s', p, h) <==> Owns(s, p, h))
    requires forall p, h :: Appears(s', p, h) ==> h in moved || Appears(s, p, h)
    requires forall h :: h in moved ==> OwnedOnce(s', h)
    ensures Exact(s')
  {
    forall h | h in s'.accepted ensures OwnedOnce(s', h) {
      if h !in moved {
        assert OwnedOnce(s, h);
        var p :| Owns(s, p, h);
        assert Owns(s', p, h);
      }
    }
  }

  /** A group of hashes moves from one place to another, and nothing else changes hands. */
  lemma Move(s: State, s': State, moved: set<nat>, from: Place, to: Place)
    requires Exact(s) && s'.accepted == s.accepted && from != to
    requires forall p, h :: Owns(s', p, h) ==> (p == to && h in moved) || (Owns(s, p, h) && !(p == from && h in moved))
    requires forall p, h :: Owns(s, p, h) && h !in moved ==> Owns(s', p, h)
    requires forall h :: h in moved ==> Owns(s, from, h) && Owns(s', to, h)
    requires forall p, h :: Appears(s', p, h) ==> h in moved || Appears(s, p, h)
    ensures Exact(s')
  {
    forall h | h in moved ensures h in s.accepted && OwnedOnce(s', h) {
      assert Owns(s, from, h) && Owns(s', to, h);
      assert OwnedOnce(s, h);
    }
    Transfer(s, s', moved);
  }

  lemma AcceptKeeps(c: Config, s: State, op: MeeUserOp, force: bool)
    requires Inv(c, s) && op.meeUserOpHash !in s.accepted
    ensures Inv(c, Accepted(s, op, force))
  {
    var s' := Accepted(s, op, force);
    var h, to := op.meeUserOpHash, Simulating(s.nextJob);
    assert forall p, g :: Appears(s', p, g) <==> Appears(s, p, g) || (p == to && g == h);
    assert Owns(s', to, h);
    Transfer(s, s', {h});
  }

  lemma SimCompleteKeeps(c: Config, s: State, job: nat)
    requires Inv(c, s) && job in s.simulator && job !in s.spent
    ensures Inv(c, Pipeline.Simulated(s, job))
  {
    var h := s.simulator[job].op.meeUserOpHash;
    Move(s, Pipeline.Simulated(s, job), {h}, Simulating(job), Simulated(job));
  }

  lemma SimFailKeeps(c: Config, s: State, job: nat, error: OpError)
    requires Inv(c, s) && job in s.simulator && job !in s.spent
    ensures Inv(c, FailedInSimulation(s, job, error))
  {
    var h := s.simulator[job].op.meeUserOpHash;
    Move(s, FailedInSimulation(s, job, error), {h}, Simulating(job), Settled);
  }

  lemma SimRequeueKeeps(c: Config, s: State, job: nat)
    requires Inv(c, s) && job in s.simulator && job !in s.spent
    ensures Inv(c, Requeued(s, job))
  {
    var h := s.simulator[job].op.meeUserOpHash;
    Move(s, Requeued(s, job), {h}, Simulating(job), Simulating(s.nextJob));
  }

  /** A job whose operation has no stored quote cannot be reached: the source calls this "should never happen". */
  lemma EveryQueuedOpHasQuote(c: Config, s: State, job: nat)
    requires Inv(c, s)
    ensures !Enabled(c, s, SimUnknown(job))
  {
    if job in s.simulator {
      assert Appears(s, Simulating(job), s.simulator[job].op.meeUserOpHash);
    }
  }

  /** The operations of an executor job that is not splitting are owned by it and have no outcome yet. */
  lemma JobOwnsItsOps(c: Config, s: State, job: nat)
    requires Inv(c, s) && job in s.executor && job !in s.splitting
    ensures Hashes(s.executor[job].meeUserOps) !! s.settled
    ensures forall h :: h in Hashes(s.executor[job].meeUserOps) ==> Owns(s, Executing(job), h)
  {
    forall h | h in Hashes(s.executor[job].meeUserOps) ensures h !in s.settled {
      assert Owns(s, Executing(job), h);
      assert OwnedOnce(s, h);
      assert h in s.settled ==> Owns(s, Settled, h);
    }
  }

  lemma FinishedMoves(c: Config, s: State, job: nat, txHash: nat, receipt: Option<Receipt>)
    requires Inv(c, s) && job in s.executor && job !in s.splitting
    ensures Exact(Finished(s, job, txHash, receipt))
  {
    JobOwnsItsOps(c, s, job);
    Move(s, Finished(s, job, txHash, receipt), Hashes(s.executor[job].meeUserOps), Executing(job), Settled);
  }

  lemma ConfirmedOutcomes(
      records: map<nat, Record>, settled: set<nat>, ops: seq<MeeUserOp>, txHash: nat, receipt: Option<Receipt>)
    requires forall h :: h in settled ==> HasOutcome(records, h)
    requires Hashes(ops) !! settled
    ensures forall h :: h in settled + Hashes(ops) ==> HasOutcome(BlockResult(records, ops, txHash, receipt, true), h)
  {
  }

  lemma ExecFinishKeeps(c: Config, s: State, job: nat, txHash: nat, receipt: Option<Receipt>)
    requires Inv(c, s) && job in s.executor && job !in s.splitting
    ensures Inv(c, Finished(s, job, txHash, receipt))
  {
    JobOwnsItsOps(c, s, job);
    ConfirmedOutcomes(s.records, s.settled, s.executor[job].meeUserOps, txHash, receipt);
    FinishedMoves(c, s, job, txHash, receipt);
  }

  lemma GivenUpMoves(c: Config, s: State, job: nat, unrecoverable: bool)
    requires Inv(c, s) && job in s.executor && job !in s.splitting
    requires IsLastAttempt(c, s.executor[job], unrecoverable)
    ensures Exact(Thrown(c, s, job, unrecoverable))
  {
    JobOwnsItsOps(c, s, job);
    Move(s, Thrown(c, s, job, unrecoverable), Hashes(s.executor[job].meeUserOps), Executing(job), Settled);
  }

  lemma RetriedMoves(c: Config, s: State, job: nat, unrecoverable: bool)
    requires Inv(c, s) && job in s.executor && job !in s.splitting
    requires !IsLastAttempt(c, s.executor[job], unrecoverable)
    ensures Exact(Thrown(c, s, job, unrecoverable))
  {
    Transfer(s, Thrown(c, s, job, unrecoverable), {});
  }

  lemma ThrownWellFormed(c: Config, s: State, job: nat, unrecoverable: bool)
    requires WellFormed(c, s) && job in s.executor && job !in s.splitting
    ensures WellFormed(c, Thrown(c, s, job, unrecoverable))
  {
  }

  lemma ExecThrowKeeps(c: Config, s: State, job: nat, unrecoverable: bool)
    requires Inv(c, s) && job in s.executor && job !in s.splitting
    ensures Inv(c, Thrown(c, s, job, unrecoverable))
  {
    hide WellFormed, Exact, Thrown;
    ThrownWellFormed(c, s, job, unrecoverable);
    if IsLastAttempt(c, s.executor[job], unrecoverable) {
      GivenUpMoves(c, s, job, unrecoverable);
    } else {
      RetriedMoves(c, s, job, unrecoverable);
    }
  }

  lemma DroppedMoves(s: State, job: nat, now: int)
    requires Exact(s) && job in s.executor && job !in s.splitting
    requires forall h :: h in Hashes(s.executor[job].meeUserOps) ==> Owns(s, Executing(job), h)
    ensures Exact(Dropped(s, job, now))
  {
    hide Exact;
    var ops := s.executor[job].meeUserOps;
    Move(s, Dropped(s, job, now), Hashes(ops) - Unexpired(ops, now), Executing(job), Settled);
  }

  lemma DroppedWellFormed(c: Config, s: State, job: nat, now: int)
    requires WellFormed(c, s) && job in s.executor && job !in s.splitting
    ensures WellFormed(c, Dropped(s, job, now))
  {
  }

  lemma ExecDropExpiredKeeps(c: Config, s: State, job: nat, now: int)
    requires Inv(c, s) && job in s.executor && job !in s.splitting
    ensures Inv(c, Dropped(s, job, now))
  {
    hide WellFormed, Exact, Dropped;
    DroppedWellFormed(c, s, job, now);
    JobOwnsItsOps(c, s, job);
    DroppedMoves(s, job, now);
  }

  lemma SplitEndedMoves(c: Config, s: State, job: nat)
    requires Inv(c, s) && job in s.executor && job in s.splitting
    ensures Exact(SplitEnded(s, job))
  {
    Move(s, SplitEnded(s, job), Hashes(s.splitting[job]), Executing(job), Settled);
  }

  lemma ExecSplitEndKeeps(c: Config, s: State, job: nat)
    requires Inv(c, s) && job in s.executor && job in s.splitting
    ensures Inv(c, SplitEnded(s, job))
  {
    SplitEndedMoves(c, s, job);
  }

  /** Nothing changes hands when only the records change. */
  lemma SameOwners(s: State, s': State)
    requires Exact(s) && s' == s.(records := s'.records)
    ensures Exact(s')
  {
    Transfer(s, s', {});
  }

  lemma QuickStatusKeeps(c: Config, s: State, job: nat, txHash: nat, seen: Receipt)
    requires Inv(c, s) && job in s.executor && job !in s.splitting
    ensures Inv(c, s.(records := BlockResult(s.records, s.executor[job].meeUserOps, txHash, Some(seen), false)))
  {
    JobOwnsItsOps(c, s, job);
    SameOwners(s, s.(records := BlockResult(s.records, s.executor[job].meeUserOps, txHash, Some(seen), false)));
    hide Exact;
  }

  lemma NoteTxKeeps(c: Config, s: State, job: nat, previous: Option<nat>)
    requires Inv(c, s) && job in s.executor && job !in s.splitting
    ensures Inv(c, s.(executor := s.executor[job := s.executor[job].(previousTxHash := previous)]))
  {
    Transfer(s, s.(executor := s.executor[job := s.executor[job].(previousTxHash := previous)]), {});
  }

  lemma SimLeaveKeeps(c: Config, s: State, job: nat)
    requires Inv(c, s) && job in s.spent
    ensures Inv(c, s.(simulator := s.simulator - {job}, spent := s.spent - {job}))
  {
    Transfer(s, s.(simulator := s.simulator - {job}, spent := s.spent - {job}), {});
  }

  lemma PassFetchKeeps(c: Config, s: State, jobs: seq<nat>)
    requires Inv(c, s) && Enabled(c, s, PassFetch(jobs))
    ensures Inv(c, s.(pass := Fetched(jobs)))
  {
    Transfer(s, s.(pass := Fetched(jobs)), {});
  }

  lemma PassRemoveKeeps(c: Config, s: State)
    requires Inv(c, s) && s.pass.Added?
    ensures Inv(c, s.(completed := s.completed - (set job | job in s.pass.jobs), pass := Idle))
  {
    Transfer(s, s.(completed := s.completed - (set job | job in s.pass.jobs), pass := Idle), {});
  }

  // ----- Steps that add executor jobs -----

  /** The place is one of the jobs being added, and its list has the hash. */
  ghost predicate IsNewHome(s: State, lists: seq<seq<MeeUserOp>>, p: Place, h: nat) {
    && p.Executing?
    && s.nextJob <= p.job < s.nextJob + |lists|
    && h in Hashes(lists[p.job - s.nextJob])
  }

  lemma OneNewHome(s: State, lists: seq<seq<MeeUserOp>>, hashes: set<nat>, h: nat) returns (p: Place)
    requires Partition(lists, hashes) && h in hashes
    ensures IsNewHome(s, lists, p, h) && forall q :: IsNewHome(s, lists, q, h) ==> q == p
  {
    var i :| 0 <= i < |lists| && h in Hashes(lists[i]);
    p := Executing(s.nextJob + i);
    forall q | IsNewHome(s, lists, q, h) ensures q == p {
      assert q.job - s.nextJob == i;
    }
  }

  /** The moved hashes are spread over new jobs, some others are settled, and nothing else changes hands. */
  lemma Distribute(s: State, s': State, lists: seq<seq<MeeUserOp>>, moved: set<nat>, settledNow: set<nat>)
    requires Exact(s) && s'.accepted == s.accepted
    requires Partition(lists, moved) && moved + settledNow <= s.accepted && moved !! settledNow
    requires forall p, h :: Owns(s', p, h) <==>
        || IsNewHome(s, lists, p, h)
        || (p == Settled && h in settledNow)
        || (Owns(s, p, h) && h !in moved && h !in settledNow)
    requires forall p, h :: Appears(s', p, h) ==> Appears(s, p, h) || h in moved || h in settledNow
    ensures Exact(s')
  {
    forall h | h in moved ensures OwnedOnce(s', h) {
      var p := OneNewHome(s, lists, moved, h);
      assert Owns(s', p, h);
    }
    forall h | h in settledNow ensures OwnedOnce(s', h) {
      assert Owns(s', Settled, h);
      assert forall p :: !IsNewHome(s, lists, p, h) by {
        assert forall i :: 0 <= i < |lists| ==> h !in Hashes(lists[i]);
      }
    }
    forall p, h | h !in moved + settledNow ensures Owns(s', p, h) <==> Owns(s, p, h) {
      assert forall i :: 0 <= i < |lists| ==> h !in Hashes(lists[i]);
    }
    Transfer(s, s', moved + settledNow);
  }

  /** Who owns what once a job has handed the hashes `moved` to new jobs and keeps `rest`. */
  lemma HandedOver(s: State, job: nat, lists: seq<seq<MeeUserOp>>, moved: set<nat>, rest: seq<MeeUserOp>, p: Place, h: nat)
    requires job in s.executor
    requires s.splitting.Keys <= s.executor.Keys && forall j :: j in s.executor ==> j < s.nextJob
    requires Partition(lists, moved) && Hashes(rest) == Hashes(Held(s, job)) - moved
    requires Hashes(Held(s, job)) <= Hashes(s.executor[job].meeUserOps)
    requires h in moved && Owns(s, p, h) ==> p == Executing(job)
    ensures var s' := AddJobs(s, lists).(splitting := s.splitting[job := rest]);
            && (Owns(s', p, h) <==> IsNewHome(s, lists, p, h) || (Owns(s, p, h) && h !in moved))
            && (Appears(s', p, h) ==> Appears(s, p, h) || h in moved)
  {
    if IsNewHome(s, lists, p, h) {
      assert h in Hashes(lists[p.job - s.nextJob]);
    }
  }

  lemma HandOver(c: Config, s: State, job: nat, lists: seq<seq<MeeUserOp>>, moved: set<nat>, rest: seq<MeeUserOp>)
    requires Inv(c, s) && job in s.executor
    requires Partition(lists, moved) && Hashes(rest) == Hashes(Held(s, job)) - moved
    requires moved <= Hashes(Held(s, job)) <= Hashes(s.executor[job].meeUserOps)
    ensures Exact(AddJobs(s, lists).(splitting := s.splitting[job := rest]))
  {
    var s' := AddJobs(s, lists).(splitting := s.splitting[job := rest]);
    forall h | h in moved ensures h in s.accepted && forall p :: Owns(s, p, h) ==> p == Executing(job) {
      assert Owns(s, Executing(job), h);
      assert OwnedOnce(s, h);
    }
    forall p, h
      ensures Owns(s', p, h) <==> IsNewHome(s, lists, p, h) || (Owns(s, p, h) && h !in moved)
      ensures Appears(s', p, h) ==> Appears(s, p, h) || h in moved
    {
      HandedOver(s, job, lists, moved, rest, p, h);
    }
    Distribute(s, s', lists, moved, {});
  }

  lemma AddJobsWellFormed(c: Config, s: State, lists: seq<seq<MeeUserOp>>, hashes: set<nat>)
    requires WellFormed(c, s) && c.attempts > 0 && Partition(lists, hashes)
    ensures WellFormed(c, AddJobs(s, lists))
  {
  }

  lemma HandOverWellFormed(
      c: Config, s: State, job: nat, lists: seq<seq<MeeUserOp>>, moved: set<nat>, rest: seq<MeeUserOp>)
    requires WellFormed(c, s) && c.attempts > 0 && job in s.executor && Partition(lists, moved)
    requires DistinctHashes(rest) && forall op :: op in rest ==> op in s.executor[job].meeUserOps
    ensures WellFormed(c, AddJobs(s, lists).(splitting := s.splitting[job := rest]))
  {
    AddJobsWellFormed(c, s, lists, moved);
  }

  /** What a job still holds is a list of its own operations without repetitions. */
  lemma HeldIsOwn(c: Config, s: State, job: nat)
    requires WellFormed(c, s) && job in s.executor
    ensures DistinctHashes(Held(s, job))
    ensures forall op :: op in Held(s, job) ==> op in s.executor[job].meeUserOps
    ensures Hashes(Held(s, job)) <= Hashes(s.executor[job].meeUserOps)
  {
    assert JobOk(c, s, job);
  }

  lemma ExecSplitKeeps(c: Config, s: State, job: nat, valid: set<nat>)
    requires Inv(c, s) && c.attempts > 0 && job in s.executor
    ensures Inv(c, SplitOff(s, job, valid))
  {
    var held := Held(s, job);
    var kept, rest := Keep(held, valid), Keep(held, Hashes(held) - valid);
    HeldIsOwn(c, s, job);
    BlockPartition(kept);
    HandOver(c, s, job, NewBlock(kept), Hashes(kept), rest);
    HandOverWellFormed(c, s, job, NewBlock(kept), Hashes(kept), rest);
  }

  /** Distinct completed jobs carry distinct operations. */
  lemma SnapshotDistinct(c: Config, s: State)
    requires Inv(c, s) && s.pass.Fetched?
    ensures DistinctHashes(SnapshotOps(s, s.pass.jobs))
  {
    var jobs := s.pass.jobs;
    forall i, j | 0 <= i < j < |jobs|
      ensures s.completed[jobs[i]].op.meeUserOpHash != s.completed[jobs[j]].op.meeUserOpHash
    {
      var h := s.completed[jobs[i]].op.meeUserOpHash;
      assert Owns(s, Simulated(jobs[i]), h);
      assert OwnedOnce(s, h);
      assert Simulated(jobs[i]) != Simulated(jobs[j]);
      assert !Owns(s, Simulated(jobs[j]), h);
    }
  }

  /** Admitted and skipped operations share no hash and are together the snapshot. */
  lemma {:induction false} PackingPartition(gas: GasConfig, cap: nat, ops: seq<MeeUserOp>, batches: seq<Batch>)
    requires DistinctHashes(ops) && IsNextFit(gas, cap, Admitted(gas, cap, ops), batches)
    ensures Partition(Contents(batches), Hashes(Admitted(gas, cap, ops)))
    ensures Hashes(Admitted(gas, cap, ops)) !! Hashes(Oversized(gas, cap, ops))
    ensures Hashes(Admitted(gas, cap, ops)) + Hashes(Oversized(gas, cap, ops)) == Hashes(ops)
  {
    AdmittedDistinct(gas, cap, ops);
    ConcatPartition(Contents(batches));
    PackingSortsByGas(gas, cap, ops);
    forall h | h in Hashes(Admitted(gas, cap, ops)) ensures h !in Hashes(Oversized(gas, cap, ops)) {
      var op :| op in Admitted(gas, cap, ops) && op.meeUserOpHash == h;
      forall other | other in Oversized(gas, cap, ops) ensures other.meeUserOpHash != h {
        assert op in ops && other in ops && op != other;
      }
    }
  }

  lemma {:induction false} SkippedOutcomes(records: map<nat, Record>, ops: seq<MeeUserOp>, error: OpError, settled: set<nat>)
    requires forall h :: h in settled ==> HasOutcome(records, h)
    ensures forall h :: h in settled + Hashes(ops) ==> HasOutcome(CreateErrors(records, ops, error), h)
  {
    if ops == [] {
    } else {
      var front, last := ops[..|ops| - 1], ops[|ops| - 1];
      assert ops == front + [last];
      assert Hashes(ops) == Hashes(front) + {last.meeUserOpHash};
      SkippedOutcomes(records, front, error, settled);
      var before := CreateErrors(records, front, error);
      forall h | h in settled + Hashes(ops) ensures HasOutcome(CreateErrors(records, ops, error), h) {
        assert h in settled + Hashes(front) ==> HasOutcome(before, h);
      }
    }
  }

  lemma BatchedOwner(
      s: State, s': State, lists: seq<seq<MeeUserOp>>, moved: set<nat>, skipped: set<nat>, p: Place, h: nat)
    requires s.pass.Fetched? && s'.pass == Added(s.pass.jobs)
    requires forall j :: j in s.executor ==> j < s.nextJob
    requires s.splitting.Keys <= s.executor.Keys
    requires s'.executor == AddJobs(s, lists).executor && s'.splitting == s.splitting
    requires s'.simulator == s.simulator && s'.spent == s.spent && s'.completed == s.completed
    requires s'.settled == s.settled + skipped
    requires forall job :: job in s.pass.jobs ==> job in s.completed && s.completed[job].op.meeUserOpHash in moved + skipped
    requires h in moved + skipped && Owns(s, p, h) ==> p.Simulated? && p.job in s.pass.jobs
    requires forall i :: 0 <= i < |lists| && h in Hashes(lists[i]) ==> h in moved
    ensures Owns(s', p, h) <==>
        || IsNewHome(s, lists, p, h)
        || (p == Settled && h in skipped)
        || (Owns(s, p, h) && h !in moved && h !in skipped)
    ensures Appears(s', p, h) ==> Appears(s, p, h) || h in moved || h in skipped
  {
    match p
    case Simulating(_) =>
    case Simulated(_) =>
    case Settled =>
    case Executing(job) =>
      if s.nextJob <= job < s.nextJob + |lists| {
        assert h in Hashes(lists[job - s.nextJob]) ==> h in moved;
      }
  }

  lemma SnapshotOwnedByCompleted(c: Config, s: State, h: nat)
    requires Inv(c, s) && s.pass.Fetched? && h in Hashes(SnapshotOps(s, s.pass.jobs))
    ensures h in s.accepted
    ensures forall p :: Owns(s, p, h) ==> p.Simulated? && p.job in s.pass.jobs
  {
    var i := HashesAt(SnapshotOps(s, s.pass.jobs), h);
    assert Owns(s, Simulated(s.pass.jobs[i]), h);
    assert OwnedOnce(s, h);
  }

  lemma BatchedMoves(c: Config, s: State, batches: seq<Batch>)
    requires Inv(c, s) && Enabled(c, s, PassAdd(batches))
    ensures Exact(Batched(c, s, batches))
  {
    var ops := SnapshotOps(s, s.pass.jobs);
    var moved := Hashes(Admitted(c.gas, c.batchGasLimit, ops));
    var skipped := Hashes(Oversized(c.gas, c.batchGasLimit, ops));
    SnapshotDistinct(c, s);
    PackingPartition(c.gas, c.batchGasLimit, ops, batches);
    forall h | h in moved + skipped
      ensures h in s.accepted && forall p :: Owns(s, p, h) ==> p.Simulated? && p.job in s.pass.jobs
    {
      SnapshotOwnedByCompleted(c, s, h);
    }
    var s', lists := Batched(c, s, batches), Contents(batches);
    forall job | job in s.pass.jobs
      ensures job in s.completed && s.completed[job].op.meeUserOpHash in moved + skipped
    {
      var i :| 0 <= i < |s.pass.jobs| && s.pass.jobs[i] == job;
      assert ops[i] in ops;
    }
    forall p, h
      ensures Owns(s', p, h) <==>
          || IsNewHome(s, lists, p, h)
          || (p == Settled && h in skipped)
          || (Owns(s, p, h) && h !in moved && h !in skipped)
      ensures Appears(s', p, h) ==> Appears(s, p, h) || h in moved || h in skipped
    {
      BatchedOwner(s, s', lists, moved, skipped, p, h);
    }
    Distribute(s, s', lists, moved, skipped);
  }

  lemma BatchedWellFormed(c: Config, s: State, batches: seq<Batch>, hashes: set<nat>)
    requires WellFormed(c, s) && c.attempts > 0 && s.pass.Fetched?
    requires Partition(Contents(batches), hashes)
    ensures WellFormed(c, Batched(c, s, batches))
  {
    var ops := SnapshotOps(s, s.pass.jobs);
    AddJobsWellFormed(c, s, Contents(batches), hashes);
    SkippedOutcomes(s.records, Oversized(c.gas, c.batchGasLimit, ops), InvalidMaxGasLimit, s.settled);
  }

  lemma PassAddKeeps(c: Config, s: State, batches: seq<Batch>)
    requires Inv(c, s) && c.attempts > 0 && Enabled(c, s, PassAdd(batches))
    ensures Inv(c, Batched(c, s, batches))
  {
    var ops := SnapshotOps(s, s.pass.jobs);
    BatchedMoves(c, s, batches);
    SnapshotDistinct(c, s);
    PackingPartition(c.gas, c.batchGasLimit, ops, batches);
    BatchedWellFormed(c, s, batches, Hashes(Admitted(c.gas, c.batchGasLimit, ops)));
  }

  // ----- All steps, all runs -----

  lemma StepKeeps(c: Config, s: State, step: Step)
    requires Inv(c, s) && c.attempts > 0 && Enabled(c, s, step)
    ensures Inv(c, Apply(c, s, step))
  {
    match step
    case Accept(op, force) => AcceptKeeps(c, s, op, force);
    case SimComplete(job) => SimCompleteKeeps(c, s, job);
    case SimFail(job, error) => SimFailKeeps(c, s, job, error);
    case SimUnknown(job) => EveryQueuedOpHasQuote(c, s, job);
    case SimRequeue(job) => SimRequeueKeeps(c, s, job);
    case SimLeave(job) => SimLeaveKeeps(c, s, job);
    case PassFetch(jobs) => PassFetchKeeps(c, s, jobs);
    case PassAdd(batches) => PassAddKeeps(c, s, batches);
    case PassRemove => PassRemoveKeeps(c, s);
    case ExecDropExpired(job, now) => ExecDropExpiredKeeps(c, s, job, now);
    case ExecNoteTx(job, previous) => NoteTxKeeps(c, s, job, previous);
    case ExecQuickStatus(job, txHash, seen) => QuickStatusKeeps(c, s, job, txHash, seen);
    case ExecFinish(job, txHash, receipt) => ExecFinishKeeps(c, s, job, txHash, receipt);
    case ExecThrow(job, unrecoverable) => ExecThrowKeeps(c, s, job, unrecoverable);
    case ExecSplit(job, valid) => ExecSplitKeeps(c, s, job, valid);
    case ExecSplitEnd(job) => ExecSplitEndKeeps(c, s, job);
  }

  lemma {:induction false} RunKeeps(c: Config, s: State, steps: seq<Step>)
    requires Inv(c, s) && c.attempts > 0 && IsRun(c, s, steps)
    ensures Inv(c, After(c, s, steps))
    decreases |steps|
  {
    if steps == [] {
    } else {
      StepKeeps(c, s, steps[0]);
      RunKeeps(c, Apply(c, s, steps[0]), steps[1..]);
    }
  }

  /** Whatever the three actors do, in whatever order, every accepted operation has exactly one owner. */
  lemma NoOpLostOrDuplicated(c: Config, steps: seq<Step>)
    requires c.attempts > 0 && IsRun(c, INIT, steps)
    ensures Exact(After(c, INIT, steps))
  {
    RunKeeps(c, INIT, steps);
  }

  /**
   * An operation is visible in two places exactly while one of the places where it is visible
   * has handed it on: a simulator job that has re-enqueued it, a completed simulation whose
   * batch has just been added, or an executor job that has passed it on to a new block.
   */
  lemma SeenTwiceIffStale(c: Config, steps: seq<Step>, h: nat)
    requires c.attempts > 0 && IsRun(c, INIT, steps)
    ensures var s := After(c, INIT, steps);
            (exists p, q :: p != q && Appears(s, p, h) && Appears(s, q, h)) <==>
            (exists p :: Appears(s, p, h) && IsStale(s, p, h))
  {
    NoOpLostOrDuplicated(c, steps);
    var s := After(c, INIT, steps);
    if p, q :| p != q && Appears(s, p, h) && Appears(s, q, h) {
      assert OwnedOnce(s, h);
      assert Owns(s, p, h) && Owns(s, q, h) ==> p == q;
    }
    if p :| Appears(s, p, h) && IsStale(s, p, h) {
      assert OwnedOnce(s, h);
      var owner :| Owns(s, owner, h);
      assert owner != p && Appears(s, owner, h);
    }
  }

  /** A run after which an operation is visible twice: its first job has just re-enqueued it. */
  lemma SeenTwiceIsReached(c: Config, op: MeeUserOp) returns (steps: seq<Step>)
    ensures IsRun(c, INIT, steps)
    ensures var s := After(c, INIT, steps);
            && Appears(s, Simulating(0), op.meeUserOpHash) && Appears(s, Simulating(1), op.meeUserOpHash)
            && IsStale(s, Simulating(0), op.meeUserOpHash)
  {
    steps := [Accept(op, false)];
    assert steps[1..] == [];
    assert After(c, INIT, steps) == After(c, Accepted(INIT, op, false), []);
    Append(c, INIT, steps, SimRequeue(0));
    steps := steps + [SimRequeue(0)];
  }

  /** With no hand-over in progress, an accepted operation is in exactly one place, with no exception. */
  lemma QuietStateIsExact(c: Config, steps: seq<Step>, h: nat) returns (p: Place)
    requires c.attempts > 0 && IsRun(c, INIT, steps)
    requires var s := After(c, INIT, steps);
             !s.pass.Added? && s.spent == {} && s.splitting == map[] && h in s.accepted
    ensures var s := After(c, INIT, steps); Appears(s, p, h) && forall q :: Appears(s, q, h) ==> q == p
    ensures p == Settled ==> HasOutcome(After(c, INIT, steps).records, h)
  {
    RunKeeps(c, INIT, steps);
    var s := After(c, INIT, steps);
    assert OwnedOnce(s, h);
    p :| Owns(s, p, h);
    forall q | Appears(s, q, h) ensures q == p {
      assert Owns(s, q, h);
    }
  }

  /** Two executor jobs never both answer for the same operation. */
  lemma NeverInTwoExecutorJobs(c: Config, steps: seq<Step>, a: nat, b: nat, h: nat)
    requires c.attempts > 0 && IsRun(c, INIT, steps)
    requires var s := After(c, INIT, steps); Owns(s, Executing(a), h) && Owns(s, Executing(b), h)
    ensures a == b
  {
    NoOpLostOrDuplicated(c, steps);
    assert OwnedOnce(After(c, INIT, steps), h);
    assert Executing(a) == Executing(b);
  }

  // ----- Operations only move forward -----

  predicate BeforeExecution(p: Place) {
    p.Simulating? || p.Simulated?
  }

  /** A place before execution is entered only from such a place, or on acceptance. */
  lemma EnteredFromBefore(c: Config, s: State, step: Step, q: Place, h: nat) returns (p: Place)
    requires Enabled(c, s, step) && h in s.accepted
    requires forall job :: job in s.simulator ==> job < s.nextJob
    requires BeforeExecution(q) && Owns(Apply(c, s, step), q, h)
    ensures BeforeExecution(p) && Owns(s, p, h)
  {
    p := q;
    if step.SimComplete? && q == Simulated(step.job) {
      p := Simulating(step.job);
    }
    if step.SimRequeue? && q == Simulating(s.nextJob) {
      p := Simulating(step.job);
    }
  }

  lemma {:induction false} NeverBackToSimulation(c: Config, s: State, steps: seq<Step>, p: Place, q: Place, h: nat)
    requires Inv(c, s) && c.attempts > 0 && IsRun(c, s, steps)
    requires Owns(s, p, h) && !BeforeExecution(p) && Owns(After(c, s, steps), q, h)
    ensures !BeforeExecution(q)
    decreases |steps|
  {
    assert OwnedOnce(s, h);
    if steps == [] {
    } else {
      var s' := Apply(c, s, steps[0]);
      StepKeeps(c, s, steps[0]);
      assert h in s'.accepted;
      assert OwnedOnce(s', h);
      var r :| Owns(s', r, h);
      if BeforeExecution(r) {
        var before := EnteredFromBefore(c, s, steps[0], r, h);
        assert false;
      }
      NeverBackToSimulation(c, s', steps[1..], r, q, h);
    }
  }

  /**
   * An executor job that is gone has left each operation it answered for either with a
   * recorded outcome or in exactly one other executor job.
   */
  lemma FinishedJobAccountsForItsOps(c: Config, before: seq<Step>, after: seq<Step>, job: nat, h: nat)
      returns (p: Place)
    requires c.attempts > 0 && IsRun(c, INIT, before) && IsRun(c, After(c, INIT, before), after)
    requires Owns(After(c, INIT, before), Executing(job), h)
    requires job !in After(c, After(c, INIT, before), after).executor
    ensures var s := After(c, After(c, INIT, before), after);
            && Owns(s, p, h)
            && (forall q :: Owns(s, q, h) ==> q == p)
            && ((p == Settled && HasOutcome(s.records, h)) || (p.Executing? && p.job != job))
  {
    RunKeeps(c, INIT, before);
    var s0 := After(c, INIT, before);
    RunKeeps(c, s0, after);
    var s := After(c, s0, after);
    AcceptedGrows(c, s0, after, h);
    assert OwnedOnce(s, h);
    p :| Owns(s, p, h);
    NeverBackToSimulation(c, s0, after, Executing(job), p, h);
  }

  lemma {:induction false} AcceptedGrows(c: Config, s: State, steps: seq<Step>, h: nat)
    requires IsRun(c, s, steps) && h in s.accepted
    ensures h in After(c, s, steps).accepted
    decreases |steps|
  {
    if steps != [] {
      AcceptedGrows(c, Apply(c, s, steps[0]), steps[1..], h);
    }
  }

  // ----- The attempts setting -----

  /** With the attempts setting at 0 the processor never recognises its last attempt: a thrown error records nothing. */
  lemma ThrowLosesOps(c: Config, s: State, job: nat, h: nat)
    requires c.attempts == 0 && Exact(s)
    requires job in s.executor && job !in s.splitting && h in Hashes(s.executor[job].meeUserOps)
    ensures h in Thrown(c, s, job, false).accepted
    ensures forall p :: !Owns(Thrown(c, s, job, false), p, h)
  {
    assert Owns(s, Executing(job), h);
    assert OwnedOnce(s, h);
    forall p ensures !Owns(Thrown(c, s, job, false), p, h) {
      assert Owns(s, p, h) ==> p == Executing(job);
    }
  }

  /** The state in which the only accepted operation waits in executor job 1. */
  function OneJobWaiting(op: MeeUserOp): State {
    INIT.(quotes := {op.meeUserOpHash}, accepted := {op.meeUserOpHash},
          executor := map[1 := ExecJob([op], 0, None)], nextJob := 2)
  }

  /** The only accepted operation is in the snapshot of a pass. */
  function OneJobFetched(op: MeeUserOp): State {
    INIT.(quotes := {op.meeUserOpHash}, accepted := {op.meeUserOpHash},
          completed := map[0 := SimJob(op, false, false)], nextJob := 1, pass := Fetched([0]))
  }

  lemma OneJobIsFetched(c: Config, op: MeeUserOp) returns (steps: seq<Step>)
    ensures IsRun(c, INIT, steps) && After(c, INIT, steps) == OneJobFetched(op)
  {
    var s1 := Accepted(INIT, op, false);
    var s2 := Pipeline.Simulated(s1, 0);
    assert s2.completed == map[0 := SimJob(op, false, false)] && s2.simulator == map[];
    steps := [];
    steps := Prepend(c, s2, PassFetch([0]), steps);
    steps := Prepend(c, s1, SimComplete(0), steps);
    steps := Prepend(c, INIT, Accept(op, false), steps);
  }

  lemma OneJobIsAdded(c: Config, op: MeeUserOp, batch: Batch)
    requires BlockGas(c.gas, op) <= c.batchGasLimit && batch == Batch(BlockGas(c.gas, op), [op])
    ensures Enabled(c, OneJobFetched(op), PassAdd([batch]))
    ensures Apply(c, OneJobFetched(op), PassAdd([batch])) ==
            OneJobWaiting(op).(completed := map[0 := SimJob(op, false, false)], pass := Added([0]))
  {
    hide IsNextFit;
    var s := OneJobFetched(op);
    assert SnapshotOps(s, [0]) == [op];
    OneOpPacking(c.gas, c.batchGasLimit, op);
    assert Contents([batch]) == [[op]];
    AddJobsSnoc(s, [], [op]);
    assert [] + [[op]] == [[op]];
  }

  lemma OneJobWaitingIsReached(c: Config, op: MeeUserOp) returns (steps: seq<Step>)
    requires BlockGas(c.gas, op) <= c.batchGasLimit
    ensures IsRun(c, INIT, steps) && After(c, INIT, steps) == OneJobWaiting(op)
  {
    hide IsNextFit, IsRun, After, OneJobFetched, Batched;
    var batch := Batch(BlockGas(c.gas, op), [op]);
    steps := OneJobIsFetched(c, op);
    OneJobIsAdded(c, op, batch);
    Append(c, INIT, steps, PassAdd([batch]));
    steps := steps + [PassAdd([batch])];
    Append(c, INIT, steps, PassRemove);
    steps := steps + [PassRemove];
  }

  lemma OneOpPacking(gas: GasConfig, cap: nat, op: MeeUserOp)
    requires BlockGas(gas, op) <= cap
    ensures Admitted(gas, cap, [op]) == [op] && Oversized(gas, cap, [op]) == []
    ensures IsNextFit(gas, cap, [op], [Batch(BlockGas(gas, op), [op])])
  {
    assert [op][..0] == [];
    assert Contents([Batch(BlockGas(gas, op), [op])]) == [] + [[op]];
    ConcatSnoc([], [op]);
    TotalGasSnoc(gas, [], op);
    assert [] + [op] == [op];
  }

  /** The exact condition: no run loses an operation if and only if the attempts setting is at least 1. */
  lemma NothingLostIffAttempts(c: Config, op: MeeUserOp)
    requires BlockGas(c.gas, op) <= c.batchGasLimit
    ensures (forall steps :: IsRun(c, INIT, steps) ==> Exact(After(c, INIT, steps))) <==> c.attempts > 0
  {
    if c.attempts > 0 {
      forall steps | IsRun(c, INIT, steps) ensures Exact(After(c, INIT, steps)) {
        NoOpLostOrDuplicated(c, steps);
      }
    } else {
      var steps := OneJobWaitingIsReached(c, op);
      var s, h := OneJobWaiting(op), op.meeUserOpHash;
      Append(c, INIT, steps, ExecThrow(1, false));
      if Exact(s) {
        ThrowLosesOps(c, s, 1, h);
        assert !OwnedOnce(Thrown(c, s, 1, false), h);
      }
    }
  }
}
