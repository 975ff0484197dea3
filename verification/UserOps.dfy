/** Values shared by the models of the orchestrator's actors. */
module UserOps {
  datatype Option<+T> = None | Some(value: T)

  /**
   * A signed, packed user operation. Hashes are modelled by numbers, and of the packed
   * fields only those that the actors branch on are kept. A retry delay of 0 stands for
   * "not set", which is how the source's `||` defaults treat it.
   */
  datatype MeeUserOp = MeeUserOp(
    meeUserOpHash: nat,
    userOpHash: nat,
    verificationGasLimit: nat,
    callGasLimit: nat,
    maxGasLimit: nat,
    upperBoundTimestamp: int,
    isCleanUpUserOp: bool,
    executionSimulationRetryDelay: nat)

  function Hashes(ops: seq<MeeUserOp>): (hashes: set<nat>)
    ensures forall op :: op in ops ==> op.meeUserOpHash in hashes
  {
    set op | op in ops :: op.meeUserOpHash
  }

  /** No two user operations of the list share a hash. */
  predicate DistinctHashes(ops: seq<MeeUserOp>) {
    forall i, j :: 0 <= i < j < |ops| ==> ops[i].meeUserOpHash != ops[j].meeUserOpHash
  }
}
