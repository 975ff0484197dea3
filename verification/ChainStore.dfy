/**
 * What the three actors of one chain share: the two job queues and the records, changed in
 * place. `View` is the state of the step relation; every operation states which step, or
 * which part of one, it carries out.
 */
module ChainStores {
  import opened UserOps
  import opened Packing
  import opened Records
  import opened Pipeline

  class ChainStore {
    var quotes: set<nat>
    var simulator: map<nat, SimJob>
    var completed: map<nat, SimJob>
    var executor: map<nat, ExecJob>
    var nextJob: nat
    var records: map<nat, Record>

    // History and hand-over bookkeeping, as explained at Pipeline.State.
    ghost var spent: set<nat>
    ghost var splitting: map<nat, seq<MeeUserOp>>
    ghost var pass: Pass
    ghost var accepted: set<nat>
    ghost var settled: set<nat>

    ghost function View(): State
      reads this
    {
      State(quotes, simulator, completed, executor, nextJob, spent, splitting, pass, records, accepted, settled)
    }

    constructor ()
      ensures View() == INIT
    {
      quotes, simulator, completed, executor, nextJob, records := {}, map[], map[], map[], 0, map[];
      spent, splitting, pass, accepted, settled := {}, map[], Idle, {}, {};
    }

    /** Storing the quote and scheduling its simulation. */
    method AcceptOp(c: Config, op: MeeUserOp, force: bool)
      requires op.meeUserOpHash !in accepted
      modifies this
      ensures View() == Apply(c, old(View()), Accept(op, force))
    {
      quotes := quotes + {op.meeUserOpHash};
      simulator := simulator[nextJob := SimJob(op, force, false)];
      nextJob := nextJob + 1;
      accepted := accepted + {op.meeUserOpHash};
    }

    /** addBulk on the executor queue. */
    method AddExecutorJobs(lists: seq<seq<MeeUserOp>>)
      modifies this`executor, this`nextJob
      ensures executor == AddJobs(old(View()), lists).executor
      ensures nextJob == old(nextJob) + |lists|
    {
      ghost var s := View();
      AddNoJobs(s);
      hide AddJobs;
      assert lists[..0] == [];
      for i := 0 to |lists|
        invariant nextJob == s.nextJob + i
        invariant executor == AddJobs(s, lists[..i]).executor
      {
        assert lists[..i + 1] == lists[..i] + [lists[i]];
        AddJobsSnoc(s, lists[..i], lists[i]);
        executor := executor[nextJob := ExecJob(lists[i], 0, None)];
        nextJob := nextJob + 1;
      }
      assert lists[..|lists|] == lists;
    }

    /** The same error and finish time written on the record of every listed operation. */
    method FailOps(ops: seq<MeeUserOp>, error: OpError)
      modifies this`records, this`settled
      ensures View() == old(View()).(records := FailAll(old(records), Hashes(ops), error),
                                     settled := old(settled) + Hashes(ops))
    {
      ghost var before := records;
      for i := 0 to |ops|
        invariant records == FailAll(before, Hashes(ops[..i]), error) && settled == old(settled)
      {
        var h := ops[i].meeUserOpHash;
        assert ops[..i + 1] == ops[..i] + [ops[i]];
        assert Hashes(ops[..i + 1]) == Hashes(ops[..i]) + {h};
        FailOneMore(before, Hashes(ops[..i]), h, error);
        records := records[h := Get(records, h).(error := Some(error), finished := true)];
      }
      assert ops[..|ops|] == ops;
      settled := settled + Hashes(ops);
    }

    /** setUserOpCustomField for every skipped operation: an error already there is kept. */
    method CreateOpErrors(ops: seq<MeeUserOp>, error: OpError)
      modifies this`records, this`settled
      ensures View() == old(View()).(records := CreateErrors(old(records), ops, error),
                                     settled := old(settled) + Hashes(ops))
    {
      ghost var before := records;
      for i := 0 to |ops|
        invariant records == CreateErrors(before, ops[..i], error) && settled == old(settled)
      {
        assert ops[..i + 1][..i] == ops[..i];
        records := CreateError(records, ops[i].meeUserOpHash, error);
      }
      assert ops[..|ops|] == ops;
      settled := settled + Hashes(ops);
    }
  }
}
