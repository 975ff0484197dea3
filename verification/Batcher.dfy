/**
 * The batcher of one chain. A pass is cut where it awaits the queues, because simulations
 * complete and executor steps happen in between; the lock keeps passes from overlapping.
 */
module Batcher {
  import opened UserOps
  import opened Packing
  import opened Records
  import opened Pipeline
  import opened ChainStores

  class BatcherService {
    const store: ChainStore
    const config: Config
    var eventListenerLocked: bool
    var simulatorCompleteJobs: seq<nat>

    /** The lock is held exactly while a pass is under way, and the pass remembers its own snapshot. */
    ghost predicate Valid()
      reads this, store
    {
      && (!eventListenerLocked ==> store.pass.Idle?)
      && (!store.pass.Idle? ==> store.pass.jobs == simulatorCompleteJobs)
    }

    constructor (store: ChainStore, config: Config)
      requires store.pass.Idle?
      ensures Valid() && this.store == store && this.config == config && !eventListenerLocked
    {
      this.store, this.config := store, config;
      eventListenerLocked, simulatorCompleteJobs := false, [];
    }

    /** A queue event or a timer tick: starts a pass unless one is running. */
    method OnEvent() returns (started: bool)
      requires Valid()
      modifies this`eventListenerLocked
      ensures Valid() && eventListenerLocked
      ensures started == !old(eventListenerLocked)
      ensures started ==> store.pass.Idle?
    {
      if eventListenerLocked {
        return false;
      }
      eventListenerLocked := true;
      return true;
    }

    /**
     * The queue's answers arrive: how many blocks still wait, and the completed jobs in the
     * queue's order. The pass ends here if blocks are waiting or nothing is completed.
     */
    method FetchCompletedJobs(waiting: nat, jobs: seq<nat>) returns (goesOn: bool)
      requires Valid() && eventListenerLocked && Enabled(config, store.View(), PassFetch(jobs))
      modifies this, store`pass
      ensures Valid()
      ensures goesOn == eventListenerLocked == (waiting == 0 && jobs != [])
      ensures store.View() == if goesOn then Apply(config, old(store.View()), PassFetch(jobs)) else old(store.View())
    {
      if waiting != 0 || |jobs| == 0 {
        eventListenerLocked := false;
        return false;
      }
      simulatorCompleteJobs := jobs;
      store.pass := Fetched(jobs);
      return true;
    }

    /** Packs the snapshot, marks what fits no block, and adds the blocks to the executor queue. */
    method AddBatches() returns (batches: seq<Batch>)
      requires Valid() && eventListenerLocked && store.pass.Fetched?
      requires forall i :: 0 <= i < |simulatorCompleteJobs| ==> simulatorCompleteJobs[i] in store.completed
      modifies store
      ensures Valid() && eventListenerLocked && store.pass.Added?
      ensures Enabled(config, old(store.View()), PassAdd(batches))
      ensures store.View() == Apply(config, old(store.View()), PassAdd(batches))
    {
      ghost var s := store.View();
      var ops := seq(|simulatorCompleteJobs|,
                     i requires 0 <= i < |simulatorCompleteJobs| && simulatorCompleteJobs[i] in store.completed
                       reads this, store => store.completed[simulatorCompleteJobs[i]].op);
      assert ops == SnapshotOps(s, s.pass.jobs);
      var skipped;
      batches, skipped := PackCompletedSimulations(config.gas, config.batchGasLimit, ops);
      store.CreateOpErrors(skipped, InvalidMaxGasLimit);
      store.AddExecutorJobs(Contents(batches));
      store.pass := Added(simulatorCompleteJobs);
    }

    /** Removes exactly the snapshot's jobs, not those completed since, and releases the lock. */
    method RemoveSnapshot()
      requires Valid() && eventListenerLocked && store.pass.Added?
      modifies this, store`completed, store`pass
      ensures Valid() && !eventListenerLocked
      ensures store.View() == Apply(config, old(store.View()), PassRemove)
    {
      ghost var s := store.View();
      for i := 0 to |simulatorCompleteJobs|
        invariant unchanged(this) && store.pass == s.pass
        invariant store.completed == s.completed - (set job | job in simulatorCompleteJobs[..i])
        invariant store.View() == s.(completed := store.completed)
      {
        assert simulatorCompleteJobs[..i + 1] == simulatorCompleteJobs[..i] + [simulatorCompleteJobs[i]];
        store.completed := store.completed - {simulatorCompleteJobs[i]};
      }
      assert simulatorCompleteJobs[..|simulatorCompleteJobs|] == simulatorCompleteJobs;
      store.pass := Idle;
      eventListenerLocked := false;
    }
  }
}
