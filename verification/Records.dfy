/**
 * The custom fields that the actors write on a user operation's record, and the outcome
 * of a mined block as the executor reads it from the receipt's logs.
 */
module Records {
  import opened UserOps

  datatype OpError =
    | InvalidMaxGasLimit
    | ValidationFailed
    | InvalidSignature
    | DeadlineExceeded
    | Reverted
    | NotProcessed
    | ExecutionFailed

  /** Fields that were never written are None (or false). */
  datatype Record = Record(error: Option<OpError>, txHash: Option<nat>, isConfirmed: Option<bool>, finished: bool)

  const BLANK := Record(None, None, None, false)

  function Get(records: map<nat, Record>, h: nat): Record {
    if h in records then records[h] else BLANK
  }

  /** A field set only if it is absent (Redis hsetnx). */
  function CreateError(records: map<nat, Record>, h: nat, error: OpError): map<nat, Record> {
    var r := Get(records, h);
    records[h := if r.error.None? then r.(error := Some(error)) else r]
  }

  /** The same fields overwritten (Redis hset) on each of the given records. */
  function FailAll(records: map<nat, Record>, hashes: set<nat>, error: OpError): map<nat, Record> {
    map h | h in records.Keys + hashes ::
      if h in hashes then Get(records, h).(error := Some(error), finished := true) else records[h]
  }

  lemma FailNone(records: map<nat, Record>, error: OpError)
    ensures FailAll(records, {}, error) == records
  {
  }

  lemma FailOneMore(records: map<nat, Record>, hashes: set<nat>, h: nat, error: OpError)
    ensures var some := FailAll(records, hashes, error);
            FailAll(records, hashes + {h}, error) == some[h := Get(some, h).(error := Some(error), finished := true)]
  {
  }

  /** UserOperationEvent as emitted by the entry point. */
  datatype OpEvent = OpEvent(userOpHash: nat, success: bool)

  datatype Receipt = Receipt(reverted: bool, events: seq<OpEvent>)

  /** Event e is attributed to position i: the first operation with its hash. */
  predicate AttributedTo(ops: seq<MeeUserOp>, e: OpEvent, i: nat)
    requires i < |ops|
  {
    && ops[i].userOpHash == e.userOpHash
    && forall j :: 0 <= j < i ==> ops[j].userOpHash != e.userOpHash
  }

  /** Some event of the list, of the given outcome, is attributed to an operation with hash h. */
  predicate HasEvent(ops: seq<MeeUserOp>, events: seq<OpEvent>, h: nat, success: bool) {
    exists k, i ::
      && 0 <= k < |events| && 0 <= i < |ops|
      && events[k].success == success && ops[i].meeUserOpHash == h && AttributedTo(ops, events[k], i)
  }

  /** What the logs say of an operation. */
  datatype Verdict = Succeeded | Failed | Absent

  /** Without a receipt every operation counts as executed; a failure outweighs a success. */
  function VerdictOf(ops: seq<MeeUserOp>, receipt: Option<Receipt>, h: nat): Verdict {
    if receipt.None? then Succeeded
    else if HasEvent(ops, receipt.value.events, h, false) then Failed
    else if HasEvent(ops, receipt.value.events, h, true) then Succeeded
    else Absent
  }

  /** What a processed block leaves on the record of one of its operations. */
  function ResultRecord(r: Record, verdict: Verdict, txHash: nat, isConfirmed: bool): Record {
    var outcome := r.(txHash := Some(txHash), isConfirmed := Some(isConfirmed), finished := true);
    match verdict
    case Succeeded => outcome
    case Failed => outcome.(error := Some(Reverted))
    case Absent => outcome.(error := Some(NotProcessed))
  }

  function BlockResult(
      records: map<nat, Record>, ops: seq<MeeUserOp>, txHash: nat, receipt: Option<Receipt>, isConfirmed: bool)
    : (result: map<nat, Record>)
    ensures result.Keys == records.Keys + Hashes(ops)
  {
    map h | h in records.Keys + Hashes(ops) ::
      if h in Hashes(ops) then ResultRecord(Get(records, h), VerdictOf(ops, receipt, h), txHash, isConfirmed)
      else records[h]
  }
}
