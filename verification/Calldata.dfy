/**
 * The calldata of ERC-7579 `execute` calls: the encoders, the decoder that chases offsets
 * by hand, and exactly when the second undoes the first.
 */
module Calldata {
  import opened Abi
  import opened UserOps
  import opened Wrappers

  datatype Call = Call(to: nat, value: Option<nat>, data: Option<Bytes>)

  datatype Execution = Execution(target: nat, value: nat, calldata: Bytes)

  datatype Error = SliceOffsetOutOfBounds | NoDigits | InvalidAddress | UnsupportedCallType | NoCall

  /** A call with the defaults filled in. */
  function Normalized(call: Call): Execution {
    Execution(call.to, if call.value.Some? then call.value.value else 0, if call.data.Some? then call.data.value else [])
  }

  ghost predicate InRange(e: Execution) {
    Fits(e.target, 20) && Fits(e.value, 32)
  }

  // ----- Encoding -----

  /** EXECUTE_SINGLE and EXECUTE_BATCH: 32 bytes, the first of which is the call type. */
  function Mode(batch: bool): (mode: Bytes)
    ensures |mode| == 32
  {
    [if batch then 1 else 0] + seq(31, _ => 0)
  }

  /** encodeFunctionData of execute(bytes32 mode, bytes executionCalldata). */
  ghost function EncodeExecute(selector: Bytes, batch: bool, executionCalldata: Bytes): Bytes {
    selector + Encode(Tuple([Word(Value(Mode(batch))), Blob(executionCalldata)]))
  }

  /** encodePacked of an address, a uint256 and bytes. */
  ghost function PackSingle(e: Execution): Bytes {
    BigEndian(e.target, 20) + BigEndian(e.value, 32) + e.calldata
  }

  function ExecutionTuple(e: Execution): Abi {
    Tuple([Word(e.target), Word(e.value), Blob(e.calldata)])
  }

  function ExecutionTuples(executions: seq<Execution>): (items: seq<Abi>)
    ensures |items| == |executions|
    ensures forall i :: 0 <= i < |items| ==> items[i] == ExecutionTuple(executions[i])
  {
    seq(|executions|, i requires 0 <= i < |executions| => ExecutionTuple(executions[i]))
  }

  ghost function PackBatch(executions: seq<Execution>): Bytes {
    Encode(Tuple([List(ExecutionTuples(executions))]))
  }

  function Executions(calls: seq<Call>): (executions: seq<Execution>)
    ensures |executions| == |calls|
    ensures forall i :: 0 <= i < |calls| ==> executions[i] == Normalized(calls[i])
  {
    seq(|calls|, i requires 0 <= i < |calls| => Normalized(calls[i]))
  }

  ghost function EncodeSingleCallData(selector: Bytes, call: Call): Bytes {
    EncodeExecute(selector, false, PackSingle(Normalized(call)))
  }

  ghost function EncodeBatchCallData(selector: Bytes, calls: seq<Call>): Bytes {
    EncodeExecute(selector, true, PackBatch(Executions(calls)))
  }

  /** In single mode only the first call is encoded, and there must be one. */
  ghost function EncodeCallData(selector: Bytes, calls: seq<Call>, batch: bool): Result<Bytes, Error> {
    if batch then Ok(EncodeBatchCallData(selector, calls))
    else if calls == [] then Err(NoCall)
    else Ok(EncodeSingleCallData(selector, calls[0]))
  }

  // ----- Decoding -----

  /**
   * viem's slice: a positive start must lie within the bytes, and an end past them is cut
   * off, or refused in strict mode. The decoder never asks for strict mode.
   */
  function Slice(bytes: Bytes, start: nat, end: nat, strict: bool): Result<Bytes, Error> {
    if start > 0 && start > |bytes| - 1 then Err(SliceOffsetOutOfBounds)
    else if strict && end != start && |bytes| < end then Err(SliceOffsetOutOfBounds)
    else
      var stop := if end < |bytes| then end else |bytes|;
      Ok(if start <= stop then bytes[start..stop] else [])
  }

  /** The digits of a number; BigInt refuses a string without any. */
  function ToNumber(bytes: Bytes): Result<nat, Error> {
    if bytes == [] then Err(NoDigits) else Ok(Value(bytes))
  }

  function ReadWord(bytes: Bytes, at: nat, strict: bool): Result<nat, Error> {
    var word :- Slice(bytes, at, at + 32, strict);
    ToNumber(word)
  }

  function ToAddress(bytes: Bytes): Result<nat, Error> {
    if |bytes| != 20 then Err(InvalidAddress) else Ok(Value(bytes))
  }

  function DecodeSingle(bytes: Bytes, strict: bool): Result<seq<Execution>, Error> {
    var address :- Slice(bytes, 0, 20, strict);
    var target :- ToAddress(address);
    var value :- ReadWord(bytes, 20, strict);
    var calldata :- Slice(bytes, 52, |bytes|, strict);
    Ok([Execution(target, value, calldata)])
  }

  /** The low 20 bytes of a word. */
  function ReadAddress(bytes: Bytes, at: nat, strict: bool): Result<nat, Error> {
    var targetBytes :- Slice(bytes, at, at + 32, strict);
    var address :- Slice(targetBytes, 12, 32, strict);
    ToAddress(address)
  }

  /** The bytes that the offset of an execution's third field leads to. */
  function ReadData(bytes: Bytes, item: nat, strict: bool): Result<Bytes, Error> {
    var offset :- ReadWord(bytes, item + 64, strict);
    var length :- ReadWord(bytes, item + offset, strict);
    Slice(bytes, item + offset + 32, item + offset + 32 + length, strict)
  }

  function ReadExecution(bytes: Bytes, item: nat, strict: bool): Result<Execution, Error> {
    var target :- ReadAddress(bytes, item, strict);
    var value :- ReadWord(bytes, item + 32, strict);
    var calldata :- ReadData(bytes, item, strict);
    Ok(Execution(target, value, calldata))
  }

  /** Execution i of a batch whose pointers start at `base`. */
  function DecodeExecution(bytes: Bytes, base: nat, i: nat, strict: bool): Result<Execution, Error> {
    var p :- ReadWord(bytes, base + 32 * i, strict);
    ReadExecution(bytes, base + p, strict)
  }

  function Decoded(bytes: Bytes, base: nat, n: nat, strict: bool): (results: seq<Result<Execution, Error>>)
    ensures |results| == n
    ensures forall i :: 0 <= i < n ==> results[i] == DecodeExecution(bytes, base, i, strict)
  {
    seq(n, i requires 0 <= i < n => DecodeExecution(bytes, base, i, strict))
  }

  /** All the values, or the first error. */
  function Collect(results: seq<Result<Execution, Error>>): Result<seq<Execution>, Error> {
    if results == [] then Ok([])
    else
      match Collect(results[..|results| - 1])
      case Err(error) => Err(error)
      case Ok(front) =>
        match results[|results| - 1]
        case Err(error) => Err(error)
        case Ok(last) => Ok(front + [last])
  }

  lemma {:induction false} FirstErrorDecides(results: seq<Result<Execution, Error>>, i: nat)
    requires i <= |results| && Collect(results[..i]).Err?
    ensures Collect(results) == Err(Collect(results[..i]).error)
  {
    if i < |results| {
      assert results[..|results| - 1][..i] == results[..i];
      FirstErrorDecides(results[..|results| - 1], i);
    } else {
      assert results[..i] == results;
    }
  }

  lemma {:induction false} CollectAll(results: seq<Result<Execution, Error>>, values: seq<Execution>)
    requires |results| == |values| && forall i :: 0 <= i < |values| ==> results[i] == Ok(values[i])
    ensures Collect(results) == Ok(values)
  {
    if values != [] {
      var front := values[..|values| - 1];
      CollectAll(results[..|front|], front);
      assert front + [values[|front|]] == values;
    }
  }

  function DecodeBatch(bytes: Bytes, strict: bool): Result<seq<Execution>, Error> {
    var u :- ReadWord(bytes, 0, strict);
    var length :- ReadWord(bytes, u, strict);
    Collect(Decoded(bytes, u + 32, length, strict))
  }

  /** The batch decoder's loop: it stops at the first read that throws. */
  method DecodeERC7579BatchCalldata(bytes: Bytes) returns (r: Result<seq<Execution>, Error>)
    ensures r == DecodeBatch(bytes, false)
  {
    var u :- ReadWord(bytes, 0, false);
    var executionBatchLength :- ReadWord(bytes, u, false);
    var executionBatchOffset := u + 32;
    ghost var results := Decoded(bytes, executionBatchOffset, executionBatchLength, false);
    var executions: seq<Execution> := [];
    for i := 0 to executionBatchLength
      invariant Collect(results[..i]) == Ok(executions)
    {
      assert results[..i + 1][..i] == results[..i];
      var execution := DecodeExecution(bytes, executionBatchOffset, i, false);
      if execution.Err? {
        FirstErrorDecides(results, i + 1);
        return Err(execution.error);
      }
      executions := executions + [execution.value];
    }
    assert results[..executionBatchLength] == results;
    return Ok(executions);
  }

  /** The execution calldata: the offset is taken from byte 36 and the length from just before the data. */
  function ExecutionCalldata(bytes: Bytes, strict: bool): Result<Bytes, Error> {
    var offset :- ReadWord(bytes, 36, strict);
    var at := 36 + offset;
    var length :- ReadWord(bytes, at - 32, strict);
    Slice(bytes, at, at + length, strict)
  }

  function CallType(bytes: Bytes, strict: bool): Result<Bytes, Error> {
    var mode :- Slice(bytes, 4, 36, strict);
    Slice(mode, 0, 1, strict)
  }

  function DecodeCalldata(bytes: Bytes, strict: bool): Result<seq<Execution>, Error> {
    var callType :- CallType(bytes, strict);
    var executionCalldata :- ExecutionCalldata(bytes, strict);
    if callType == [0] then DecodeSingle(executionCalldata, strict)
    else if callType == [1] then DecodeBatch(executionCalldata, strict)
    else Err(UnsupportedCallType)
  }

  /** The fields of the call are in the range of their types. */
  ghost predicate IsEncodable(call: Call) {
    && Fits(call.to, 20)
    && (call.value.Some? ==> Fits(call.value.value, 32))
    && (call.data.Some? ==> Fits(|call.data.value|, 32))
  }

  predicate HasData(call: Call) {
    call.data.Some? && call.data.value != []
  }

  /** In single mode the first call counts. */
  function Count(calls: seq<Call>, batch: bool): nat {
    if batch then |calls| else 1
  }

  /** The execution is the call, with value 0 and empty data where the call has none. */
  predicate Carries(e: Execution, call: Call) {
    && e.target == call.to
    && (call.value.Some? ==> e.value == call.value.value) && (call.value.None? ==> e.value == 0)
    && (call.data.Some? ==> e.calldata == call.data.value) && (call.data.None? ==> e.calldata == [])
  }

  /** The first `count` calls come back, in order, or are refused because the last of them has no data. */
  predicate GivesBack(r: Result<seq<Execution>, Error>, calls: seq<Call>, count: nat)
    requires count <= |calls|
  {
    if count > 0 && !HasData(calls[count - 1]) then r == Err(SliceOffsetOutOfBounds)
    else r.Ok? && |r.value| == count && forall i :: 0 <= i < count ==> Carries(r.value[i], calls[i])
  }

  /** The bytes are what the encoder makes of a list of calls. */
  ghost predicate IsEncodingOf(bytes: Bytes, selector: Bytes, calls: seq<Call>, batch: bool) {
    && |selector| == 4 && (batch || calls != [])
    && (forall call :: call in calls[..Count(calls, batch)] ==> IsEncodable(call))
    && EncodeCallData(selector, calls, batch) == Ok(bytes) && Fits(|bytes|, 32)
  }

  lemma CallTypeIsByteFour(bytes: Bytes)
    ensures |bytes| > 4 ==> CallType(bytes, false) == Ok([bytes[4]])
  {
    if |bytes| > 4 {
      var end := if |bytes| < 36 then |bytes| else 36;
      assert bytes[4..end][0..1] == [bytes[4]];
    }
  }

  method DecodeERC7579Calldata(userOpCalldata: Bytes) returns (r: Result<seq<Execution>, Error>)
    ensures r == DecodeCalldata(userOpCalldata, false)
    ensures forall selector, calls, batch :: IsEncodingOf(userOpCalldata, selector, calls, batch) ==>
              GivesBack(r, calls, Count(calls, batch))
    ensures |userOpCalldata| > 4 && userOpCalldata[4] > 1 ==> r.Err?
  {
    forall selector, calls, batch | IsEncodingOf(userOpCalldata, selector, calls, batch)
      ensures GivesBack(DecodeCalldata(userOpCalldata, false), calls, Count(calls, batch))
    {
      DecodeUndoesEncode(selector, calls, batch, false);
    }
    CallTypeIsByteFour(userOpCalldata);
    hide IsEncodingOf, GivesBack, DecodeSingle, DecodeBatch, CallType, ExecutionCalldata;
    var callType :- CallType(userOpCalldata, false);
    var executionCalldata :- ExecutionCalldata(userOpCalldata, false);
    if callType == [0] {
      r := DecodeSingle(executionCalldata, false);
    } else if callType == [1] {
      r := DecodeERC7579BatchCalldata(executionCalldata);
    } else {
      r := Err(UnsupportedCallType);
    }
  }

  // ----- Reading what was encoded -----

  /** The outcome of decoding what was encoded: the executions, unless the last of them has no data. */
  function Outcome(executions: seq<Execution>): Result<seq<Execution>, Error> {
    if executions != [] && executions[|executions| - 1].calldata == [] then Err(SliceOffsetOutOfBounds)
    else Ok(executions)
  }

  lemma {:induction false} SliceHeld(bytes: Bytes, at: nat, part: Bytes, strict: bool)
    requires Holds(bytes, at, part) && part != []
    ensures Slice(bytes, at, at + |part|, strict) == Ok(part)
  {
    assert bytes[at..at + |part|] == part;
  }

  lemma {:induction false} ReadHeld(bytes: Bytes, at: nat, n: nat, strict: bool)
    requires Fits(n, 32) && Holds(bytes, at, BigEndian(n, 32))
    ensures ReadWord(bytes, at, strict) == Ok(n)
  {
    SliceHeld(bytes, at, BigEndian(n, 32), strict);
  }

  lemma {:induction false} AddressPart(target: nat, strict: bool)
    requires Fits(target, 20)
    ensures Slice(BigEndian(target, 32), 12, 32, strict) == Ok(BigEndian(target, 20))
  {
    LowDigits(target, 32, 20);
    assert BigEndian(target, 32)[12..32] == BigEndian(target, 32)[12..];
  }

  lemma {:induction false} AddressHeld(bytes: Bytes, at: nat, target: nat, strict: bool)
    requires Fits(target, 20) && Holds(bytes, at, BigEndian(target, 32))
    ensures ReadAddress(bytes, at, strict) == Ok(target)
  {
    hide Digits;
    SliceHeld(bytes, at, BigEndian(target, 32), strict);
    AddressPart(target, strict);
  }

  /** A single call's calldata is refused exactly if it is empty. */
  lemma {:induction false} SingleRoundTrip(e: Execution, strict: bool)
    requires InRange(e)
    ensures DecodeSingle(PackSingle(e), strict) == Outcome([e])
  {
    hide Digits;
    var bytes := PackSingle(e);
    var address, value := BigEndian(e.target, 20), BigEndian(e.value, 32);
    HoldsMiddle([], address + value, e.calldata);
    assert bytes == [] + (address + value) + e.calldata;
    HoldsBoth(bytes, 0, address, value);
    SliceHeld(bytes, 0, address, strict);
    ReadHeld(bytes, 20, e.value, strict);
    TailHeld(address + value, e.calldata, strict);
  }

  lemma {:induction false} TailHeld(before: Bytes, tail: Bytes, strict: bool)
    requires before != []
    ensures var bytes := before + tail;
            Slice(bytes, |before|, |bytes|, strict) ==
            if tail == [] then Err(SliceOffsetOutOfBounds) else Ok(tail)
  {
    assert (before + tail)[|before|..|before + tail|] == tail;
  }

  /** An execution's encoding stands at `item`: its five parts are where the decoder looks for them. */
  ghost predicate ExecutionAt(bytes: Bytes, item: nat, e: Execution, offset: nat) {
    && offset == 96
    && Holds(bytes, item, BigEndian(e.target, 32))
    && Holds(bytes, item + 32, BigEndian(e.value, 32))
    && Holds(bytes, item + 64, BigEndian(offset, 32))
    && Holds(bytes, item + offset, BigEndian(|e.calldata|, 32))
    && Holds(bytes, item + offset + 32, Padded(e.calldata))
  }

  /** Component i of a layout that stands in a larger buffer, and what its head refers to. */
  lemma {:induction false} ComponentInside(bytes: Bytes, at: nat, parts: seq<Part>, i: nat)
    requires Holds(bytes, at, Layout(parts)) && WordHeads(parts) && i < |parts|
    ensures var tailAt := TailAt(parts, HeadSize(parts), i);
            && Holds(bytes, at + 32 * i, parts[i].Head(tailAt))
            && Holds(bytes, at + tailAt, parts[i].Tail())
  {
    ComponentIsFound(parts, i);
    WordHeadsAt(parts, i);
    var tailAt := TailAt(parts, HeadSize(parts), i);
    HoldsWithin(bytes, at, Layout(parts), 32 * i, parts[i].Head(tailAt));
    HoldsWithin(bytes, at, Layout(parts), tailAt, parts[i].Tail());
  }

  /** A layout whose only dynamic component is the last. */
  ghost predicate OnlyLastDynamic(parts: seq<Part>) {
    && WordHeads(parts) && parts != [] && parts[|parts| - 1].isDynamic
    && forall k :: 0 <= k < |parts| - 1 ==> !parts[k].isDynamic
  }

  lemma {:induction false} StaticInside(bytes: Bytes, at: nat, parts: seq<Part>, i: nat)
    requires Holds(bytes, at, Layout(parts)) && WordHeads(parts) && i < |parts| && !parts[i].isDynamic
    ensures Holds(bytes, at + 32 * i, parts[i].bytes)
  {
    ComponentInside(bytes, at, parts, i);
  }

  lemma {:induction false} LastInside(bytes: Bytes, at: nat, parts: seq<Part>) returns (offset: nat)
    requires Holds(bytes, at, Layout(parts)) && OnlyLastDynamic(parts)
    ensures offset == 32 * |parts|
    ensures Holds(bytes, at + offset - 32, BigEndian(offset, 32))
    ensures Holds(bytes, at + offset, parts[|parts| - 1].bytes)
    ensures |Layout(parts)| == offset + |parts[|parts| - 1].bytes|
  {
    LastTailAt(parts);
    ComponentInside(bytes, at, parts, |parts| - 1);
    offset := TailAt(parts, HeadSize(parts), |parts| - 1);
  }

  ghost function BlobBytes(data: Bytes): Bytes {
    BigEndian(|data|, 32) + Padded(data)
  }

  ghost function ExecutionPartList(e: Execution): seq<Part> {
    [Part(false, BigEndian(e.target, 32)), Part(false, BigEndian(e.value, 32)), Part(true, BlobBytes(e.calldata))]
  }

  lemma {:induction false} ExecutionLayout(e: Execution)
    ensures Encode(ExecutionTuple(e)) == Layout(ExecutionPartList(e))
  {
    assert Parts(ExecutionTuple(e).items) == ExecutionPartList(e);
  }

  lemma {:induction false} ExecutionWords(bytes: Bytes, item: nat, e: Execution)
    requires Holds(bytes, item, Layout(ExecutionPartList(e)))
    ensures Holds(bytes, item, BigEndian(e.target, 32)) && Holds(bytes, item + 32, BigEndian(e.value, 32))
  {
    StaticInside(bytes, item, ExecutionPartList(e), 0);
    StaticInside(bytes, item, ExecutionPartList(e), 1);
  }

  lemma {:induction false} ExecutionBlob(bytes: Bytes, item: nat, e: Execution) returns (offset: nat)
    requires Holds(bytes, item, Layout(ExecutionPartList(e)))
    ensures offset == 96
    ensures Holds(bytes, item + 64, BigEndian(offset, 32))
    ensures Holds(bytes, item + 96, BlobBytes(e.calldata))
    ensures |Layout(ExecutionPartList(e))| == 96 + |BlobBytes(e.calldata)|
  {
    offset := LastInside(bytes, item, ExecutionPartList(e));
  }

  lemma {:induction false} ExecutionParts(bytes: Bytes, item: nat, e: Execution) returns (offset: nat)
    requires Holds(bytes, item, Encode(ExecutionTuple(e)))
    ensures ExecutionAt(bytes, item, e, offset)
    ensures |Encode(ExecutionTuple(e))| == 128 + |Padded(e.calldata)|
  {
    ExecutionLayout(e);
    ExecutionWords(bytes, item, e);
    offset := ExecutionBlob(bytes, item, e);
    HoldsBoth(bytes, item + 96, BigEndian(|e.calldata|, 32), Padded(e.calldata));
  }

  /** Empty data is refused exactly if nothing follows it. */
  lemma {:induction false} DataHeld(bytes: Bytes, at: nat, data: Bytes, strict: bool)
    requires at > 0 && Holds(bytes, at, Padded(data))
    ensures Slice(bytes, at, at + |data|, strict) ==
            if data == [] && at == |bytes| then Err(SliceOffsetOutOfBounds) else Ok(data)
  {
    hide Digits;
    assert Padded(data)[..|data|] == data;
    assert bytes[at..at + |data|] == data by {
      assert forall k :: 0 <= k < |data| ==> data[k] == Padded(data)[k];
    }
  }

  ghost predicate Encodable(e: Execution) {
    InRange(e) && Fits(|e.calldata|, 32)
  }

  lemma {:induction false} DataIsFollowed(bytes: Bytes, item: nat, offset: nat, length: nat, strict: bool)
    requires Fits(offset, 32) && Holds(bytes, item + 64, BigEndian(offset, 32))
    requires Fits(length, 32) && Holds(bytes, item + offset, BigEndian(length, 32))
    ensures ReadData(bytes, item, strict) == Slice(bytes, item + offset + 32, item + offset + 32 + length, strict)
  {
    hide Digits;
    ReadHeld(bytes, item + 64, offset, strict);
    ReadHeld(bytes, item + offset, length, strict);
  }

  lemma {:induction false} ReadDataHeld(bytes: Bytes, item: nat, data: Bytes, offset: nat, strict: bool)
    requires Fits(|data|, 32) && Fits(offset, 32) && Holds(bytes, item + 64, BigEndian(offset, 32))
    requires Holds(bytes, item + offset, BigEndian(|data|, 32)) && Holds(bytes, item + offset + 32, Padded(data))
    ensures ReadData(bytes, item, strict) ==
            if data == [] && item + offset + 32 == |bytes| then Err(SliceOffsetOutOfBounds) else Ok(data)
  {
    hide Digits;
    DataIsFollowed(bytes, item, offset, |data|, strict);
    DataHeld(bytes, item + offset + 32, data, strict);
  }

  lemma {:induction false} ExecutionHeld(bytes: Bytes, item: nat, e: Execution, offset: nat, strict: bool)
    requires Encodable(e) && ExecutionAt(bytes, item, e, offset)
    ensures ReadExecution(bytes, item, strict) ==
            if e.calldata == [] && item + 128 == |bytes| then Err(SliceOffsetOutOfBounds) else Ok(e)
  {
    hide Digits;
    ByteFits(offset, 32);
    ReadDataHeld(bytes, item, e.calldata, offset, strict);
    AddressHeld(bytes, item, e.target, strict);
    ReadHeld(bytes, item + 32, e.value, strict);
  }

  lemma {:induction false} PointerHeld(bytes: Bytes, base: nat, i: nat, p: nat, strict: bool)
    requires Fits(|bytes|, 32) && p <= |bytes| && Holds(bytes, base + 32 * i, BigEndian(p, 32))
    ensures DecodeExecution(bytes, base, i, strict) == ReadExecution(bytes, base + p, strict)
  {
    hide Digits;
    SmallerFits(p, |bytes|, 32);
    ReadHeld(bytes, base + 32 * i, p, strict);
  }

  /** The elements of an encoded batch. */
  ghost function BatchParts(executions: seq<Execution>): (parts: seq<Part>)
    ensures |parts| == |executions|
    ensures forall i :: 0 <= i < |parts| ==> parts[i] == Part(true, Encode(ExecutionTuple(executions[i])))
  {
    var parts := Parts(ExecutionTuples(executions));
    assert forall i :: 0 <= i < |parts| ==> Blob(executions[i].calldata) in ExecutionTuple(executions[i]).items;
    parts
  }

  lemma {:induction false} BatchEncoding(executions: seq<Execution>)
    ensures PackBatch(executions) == Layout([Part(true, BigEndian(|executions|, 32) + Layout(BatchParts(executions)))])
  {
    var items := ExecutionTuples(executions);
    assert Parts([List(items)]) == [Part(true, BigEndian(|items|, 32) + Layout(Parts(items)))];
  }

  /** The parts of a batch's encoding: the list's offset, its length, and its elements. */
  lemma {:induction false} BatchHolds(executions: seq<Execution>) returns (offset: nat)
    ensures offset == 32
    ensures Holds(PackBatch(executions), 0, BigEndian(offset, 32))
    ensures Holds(PackBatch(executions), 32, BigEndian(|executions|, 32))
    ensures Holds(PackBatch(executions), 64, Layout(BatchParts(executions)))
    ensures |PackBatch(executions)| == 64 + |Layout(BatchParts(executions))| >= 64 + 32 * |executions|
  {
    var bytes := PackBatch(executions);
    var parts := [Part(true, BigEndian(|executions|, 32) + Layout(BatchParts(executions)))];
    BatchEncoding(executions);
    assert bytes[0..] == Layout(parts);
    offset := LastInside(bytes, 0, parts);
    HoldsBoth(bytes, offset, BigEndian(|executions|, 32), Layout(BatchParts(executions)));
    WordHeadsAt(BatchParts(executions), 0);
    HeadsHaveTheirSize(BatchParts(executions), HeadSize(BatchParts(executions)));
  }

  /** Pointer i leads to the encoding of execution i, which ends the batch only if it is the last. */
  lemma {:induction false} ItemHeld(executions: seq<Execution>, i: nat) returns (p: nat)
    requires i < |executions|
    ensures Holds(PackBatch(executions), 64 + 32 * i, BigEndian(p, 32))
    ensures Holds(PackBatch(executions), 64 + p, Encode(ExecutionTuple(executions[i])))
    ensures 64 + p + |Encode(ExecutionTuple(executions[i]))| == |PackBatch(executions)| <==> i == |executions| - 1
  {
    hide Digits, Layout, PackBatch, Encode, BatchParts;
    var parts := BatchParts(executions);
    var offset := BatchHolds(executions);
    p := TailAt(parts, HeadSize(parts), i);
    ComponentInside(PackBatch(executions), 64, parts, i);
    ItemEnds(executions, i);
  }

  lemma {:induction false} ItemEnds(executions: seq<Execution>, i: nat)
    requires i < |executions|
    ensures var parts := BatchParts(executions);
            TailAt(parts, HeadSize(parts), i) + |parts[i].bytes| == |Layout(parts)| <==> i == |executions| - 1
  {
    var parts := BatchParts(executions);
    ComponentIsFound(parts, i);
    if i + 1 < |parts| {
      ComponentIsFound(parts, i + 1);
      ExecutionIsLong(executions[i + 1]);
    } else {
      LastTailEndsLayout(parts);
    }
  }

  lemma {:induction false} ExecutionIsLong(e: Execution)
    ensures |Encode(ExecutionTuple(e))| >= 128
  {
    var bytes := Encode(ExecutionTuple(e));
    assert bytes[0..] == bytes;
    var offset := ExecutionParts(bytes, 0, e);
  }

  lemma {:induction false} ItemAt(executions: seq<Execution>, i: nat) returns (p: nat, offset: nat)
    requires i < |executions|
    ensures Holds(PackBatch(executions), 64 + 32 * i, BigEndian(p, 32))
    ensures ExecutionAt(PackBatch(executions), 64 + p, executions[i], offset)
    ensures 64 + p + 128 + |Padded(executions[i].calldata)| == |PackBatch(executions)| <==> i == |executions| - 1
  {
    hide Digits, PackBatch, Padded;
    p := ItemHeld(executions, i);
    offset := ExecutionParts(PackBatch(executions), 64 + p, executions[i]);
  }

  /** The decoder's answer for item i of an encoded batch: the item, unless it is the last and has no data. */
  function ItemResult(executions: seq<Execution>, i: nat): Result<Execution, Error>
    requires i < |executions|
  {
    if executions[i].calldata == [] && i == |executions| - 1 then Err(SliceOffsetOutOfBounds) else Ok(executions[i])
  }

  lemma {:induction false} ItemsCollect(results: seq<Result<Execution, Error>>, executions: seq<Execution>)
    requires |results| == |executions|
    requires forall i :: 0 <= i < |executions| ==> results[i] == ItemResult(executions, i)
    ensures Collect(results) == Outcome(executions)
  {
    if executions == [] {
    } else {
      var n := |executions| - 1;
      CollectAll(results[..n], executions[..n]);
      assert executions[..n] + [executions[n]] == executions;
    }
  }

  /**
   * The batch decoder undoes the ABI encoding, whether or not reads beyond the end are
   * tolerated, for every batch but those whose last call has no data.
   */
  lemma {:induction false} BatchRoundTrip(executions: seq<Execution>, strict: bool)
    requires forall e :: e in executions ==> Encodable(e)
    requires Fits(|PackBatch(executions)|, 32)
    ensures DecodeBatch(PackBatch(executions), strict) == Outcome(executions)
  {
    hide Digits;
    var bytes, n := PackBatch(executions), |executions|;
    var offset := BatchHolds(executions);
    ByteFits(offset, 32);
    SmallerFits(n, |bytes|, 32);
    ReadHeld(bytes, 0, offset, strict);
    ReadHeld(bytes, 32, n, strict);
    ItemsDecode(executions, strict);
    ItemsCollect(Decoded(bytes, 64, n, strict), executions);
  }

  lemma {:induction false} ExecutionInside(bytes: Bytes, item: nat, e: Execution, offset: nat)
    requires ExecutionAt(bytes, item, e, offset)
    ensures item <= |bytes|
  {
  }

  lemma {:induction false} EmptyEndsLast(bytes: Bytes, executions: seq<Execution>, i: nat, item: nat)
    requires i < |executions|
    requires item + 128 + |Padded(executions[i].calldata)| == |bytes| <==> i == |executions| - 1
    ensures (executions[i].calldata == [] && item + 128 == |bytes|) <==>
            (executions[i].calldata == [] && i == |executions| - 1)
  {
    assert Padded([]) == [];
  }

  lemma {:induction false} ItemDecodes(
      bytes: Bytes, executions: seq<Execution>, i: nat, p: nat, offset: nat, strict: bool)
    requires i < |executions| && Encodable(executions[i]) && Fits(|bytes|, 32)
    requires Holds(bytes, 64 + 32 * i, BigEndian(p, 32)) && ExecutionAt(bytes, 64 + p, executions[i], offset)
    requires 64 + p + 128 + |Padded(executions[i].calldata)| == |bytes| <==> i == |executions| - 1
    ensures DecodeExecution(bytes, 64, i, strict) == ItemResult(executions, i)
  {
    hide Digits, BigEndian, Fits, Encodable, InRange, Holds, ExecutionAt, ReadExecution, DecodeExecution, Padded;
    ExecutionInside(bytes, 64 + p, executions[i], offset);
    EmptyEndsLast(bytes, executions, i, 64 + p);
    PointerHeld(bytes, 64, i, p, strict);
    ExecutionHeld(bytes, 64 + p, executions[i], offset, strict);
  }

  lemma {:induction false} ItemsDecode(executions: seq<Execution>, strict: bool)
    requires forall e :: e in executions ==> Encodable(e)
    requires Fits(|PackBatch(executions)|, 32)
    ensures var results := Decoded(PackBatch(executions), 64, |executions|, strict);
            forall i :: 0 <= i < |executions| ==> results[i] == ItemResult(executions, i)
  {
    hide Digits;
    var bytes := PackBatch(executions);
    var results := Decoded(bytes, 64, |executions|, strict);
    forall i | 0 <= i < |executions| ensures results[i] == ItemResult(executions, i) {
      var p, offset := ItemAt(executions, i);
      ItemDecodes(bytes, executions, i, p, offset, strict);
    }
  }

  // ----- The whole calldata -----

  lemma {:induction false} ExecuteEncoding(selector: Bytes, batch: bool, calldata: Bytes)
    ensures EncodeExecute(selector, batch, calldata) ==
            selector + Layout([Part(false, Mode(batch)), Part(true, BlobBytes(calldata))])
  {
    var m, d := Word(Value(Mode(batch))), Blob(calldata);
    BigEndianOfValue(Mode(batch));
    assert Parts([m, d]) == [Part(false, Mode(batch)), Part(true, BlobBytes(calldata))];
  }

  /** Where the parts of an `execute` call stand. */
  lemma {:induction false} ExecuteHolds(selector: Bytes, batch: bool, calldata: Bytes) returns (offset: nat)
    requires |selector| == 4
    ensures offset == 64
    ensures Holds(EncodeExecute(selector, batch, calldata), 4, Mode(batch))
    ensures Holds(EncodeExecute(selector, batch, calldata), 36, BigEndian(offset, 32))
    ensures Holds(EncodeExecute(selector, batch, calldata), 68, BigEndian(|calldata|, 32))
    ensures Holds(EncodeExecute(selector, batch, calldata), 100, Padded(calldata))
  {
    hide Digits;
    var bytes := EncodeExecute(selector, batch, calldata);
    var parts := [Part(false, Mode(batch)), Part(true, BlobBytes(calldata))];
    ExecuteEncoding(selector, batch, calldata);
    assert bytes[4..] == Layout(parts);
    StaticInside(bytes, 4, parts, 0);
    offset := LastInside(bytes, 4, parts);
    HoldsBoth(bytes, 4 + offset, BigEndian(|calldata|, 32), Padded(calldata));
  }

  lemma {:induction false} CallTypeHeld(bytes: Bytes, batch: bool, strict: bool)
    requires Holds(bytes, 4, Mode(batch))
    ensures CallType(bytes, strict) == Ok([if batch then 1 else 0])
  {
    SliceHeld(bytes, 4, Mode(batch), strict);
    assert Mode(batch)[0..1] == [if batch then 1 else 0];
  }

  lemma {:induction false} ExecutionCalldataHeld(bytes: Bytes, offset: nat, calldata: Bytes, strict: bool)
    requires offset == 64 && calldata != [] && Fits(|bytes|, 32)
    requires Holds(bytes, 36, BigEndian(offset, 32))
    requires Holds(bytes, 68, BigEndian(|calldata|, 32)) && Holds(bytes, 100, Padded(calldata))
    ensures ExecutionCalldata(bytes, strict) == Ok(calldata)
  {
    hide Digits;
    ByteFits(offset, 32);
    SmallerFits(|calldata|, |bytes|, 32);
    ReadHeld(bytes, 36, offset, strict);
    ReadHeld(bytes, 68, |calldata|, strict);
    DataHeld(bytes, 100, calldata, strict);
  }

  lemma {:induction false} ExecuteDecodes(selector: Bytes, batch: bool, calldata: Bytes, strict: bool)
    requires |selector| == 4 && calldata != [] && Fits(|EncodeExecute(selector, batch, calldata)|, 32)
    ensures DecodeCalldata(EncodeExecute(selector, batch, calldata), strict) ==
            if batch then DecodeBatch(calldata, strict) else DecodeSingle(calldata, strict)
    ensures Fits(|calldata|, 32)
  {
    hide Digits;
    var bytes := EncodeExecute(selector, batch, calldata);
    var offset := ExecuteHolds(selector, batch, calldata);
    CallTypeHeld(bytes, batch, strict);
    ExecutionCalldataHeld(bytes, offset, calldata, strict);
    SmallerFits(|calldata|, |bytes|, 32);
  }

  lemma {:induction false} BatchCalldata(selector: Bytes, executions: seq<Execution>, strict: bool)
    requires |selector| == 4 && forall e :: e in executions ==> Encodable(e)
    requires Fits(|EncodeExecute(selector, true, PackBatch(executions))|, 32)
    ensures DecodeCalldata(EncodeExecute(selector, true, PackBatch(executions)), strict) == Outcome(executions)
  {
    var offset := BatchHolds(executions);
    ExecuteDecodes(selector, true, PackBatch(executions), strict);
    BatchRoundTrip(executions, strict);
  }

  lemma {:induction false} SingleCalldata(selector: Bytes, e: Execution, strict: bool)
    requires |selector| == 4 && InRange(e) && Fits(|EncodeExecute(selector, false, PackSingle(e))|, 32)
    ensures DecodeCalldata(EncodeExecute(selector, false, PackSingle(e)), strict) == Outcome([e])
  {
    ExecuteDecodes(selector, false, PackSingle(e), strict);
    SingleRoundTrip(e, strict);
  }

  /** The executions that an encoded call list stands for: in single mode, the first call only. */
  function Intended(calls: seq<Call>, batch: bool): (executions: seq<Execution>)
    requires batch || calls != []
  {
    if batch then Executions(calls) else [Normalized(calls[0])]
  }

  /**
   * Decoding undoes encoding, in both modes, whether or not reads beyond the end are tolerated,
   * for all call lists but those whose last encoded call has no data, which are refused.
   */
  lemma {:induction false} DecodeUndoesEncode(selector: Bytes, calls: seq<Call>, batch: bool, strict: bool)
    requires |selector| == 4 && (batch || calls != [])
    requires forall call :: call in calls[..Count(calls, batch)] ==> IsEncodable(call)
    requires Fits(|EncodeCallData(selector, calls, batch).value|, 32)
    ensures GivesBack(DecodeCalldata(EncodeCallData(selector, calls, batch).value, strict), calls, Count(calls, batch))
  {
    hide Digits, Fits, EncodeCallData, DecodeCalldata;
    var executions := Intended(calls, batch);
    forall i | 0 <= i < |executions| ensures Carries(executions[i], calls[i]) && Encodable(executions[i]) {
      assert calls[i] in calls[..Count(calls, batch)];
      NormalizedIsEncodable(calls[i]);
    }
    IntendedDecodes(selector, calls, batch, strict);
    IntendedGivesBack(calls, batch);
  }

  lemma {:induction false} NormalizedIsEncodable(call: Call)
    requires IsEncodable(call)
    ensures Encodable(Normalized(call))
  {
    ByteFits(0, 32);
  }

  lemma {:induction false} IntendedGivesBack(calls: seq<Call>, batch: bool)
    requires batch || calls != []
    requires var executions := Intended(calls, batch);
             forall i :: 0 <= i < |executions| ==> Carries(executions[i], calls[i])
    ensures GivesBack(Outcome(Intended(calls, batch)), calls, Count(calls, batch))
  {
    var n := Count(calls, batch);
    assert n > 0 ==> Carries(Intended(calls, batch)[n - 1], calls[n - 1]);
  }

  lemma {:induction false} IntendedDecodes(selector: Bytes, calls: seq<Call>, batch: bool, strict: bool)
    requires |selector| == 4 && (batch || calls != [])
    requires forall e :: e in Intended(calls, batch) ==> Encodable(e)
    requires Fits(|EncodeCallData(selector, calls, batch).value|, 32)
    ensures DecodeCalldata(EncodeCallData(selector, calls, batch).value, strict) == Outcome(Intended(calls, batch))
  {
    var executions := Intended(calls, batch);
    if batch {
      BatchCalldata(selector, executions, strict);
    } else {
      assert Normalized(calls[0]) in executions;
      SingleCalldata(selector, Normalized(calls[0]), strict);
    }
  }

  // ----- Where the fields of the calls stand -----

  function ValueOf(call: Call): nat {
    if call.value.Some? then call.value.value else 0
  }

  function DataOf(call: Call): Bytes {
    if call.data.Some? then call.data.value else []
  }

  lemma {:induction false} PaddedHolds(bytes: Bytes, at: nat, data: Bytes)
    requires Holds(bytes, at, Padded(data))
    ensures Holds(bytes, at, data)
  {
    HoldsBoth(bytes, at, data, seq(Padding(|data|), _ => 0));
  }

  /** A single call: call type 0, and behind the offset and the length the address, the value and the data, packed. */
  lemma {:induction false} SingleLayout(selector: Bytes, call: Call)
    requires |selector| == 4
    ensures var bytes := EncodeCallData(selector, [call], false).value;
            && Holds(bytes, 0, selector) && Holds(bytes, 4, [0])
            && Holds(bytes, 100, BigEndian(call.to, 20))
            && Holds(bytes, 120, BigEndian(ValueOf(call), 32))
            && Holds(bytes, 152, DataOf(call))
  {
    hide Digits, BigEndian;
    var bytes := EncodeCallData(selector, [call], false).value;
    var address, value, data := BigEndian(call.to, 20), BigEndian(ValueOf(call), 32), DataOf(call);
    var offset := ExecuteHolds(selector, false, PackSingle(Normalized(call)));
    ModeStartsWith(bytes, false);
    PaddedHolds(bytes, 100, PackSingle(Normalized(call)));
    HoldsBoth(bytes, 100, address + value, data);
    HoldsBoth(bytes, 100, address, value);
  }

  /** A batch: call type 1, and for each call a pointer to its address, its value, and behind its offset and length its data. */
  lemma {:induction false} BatchLayout(selector: Bytes, calls: seq<Call>, i: nat) returns (p: nat)
    requires |selector| == 4 && i < |calls|
    ensures var bytes := EncodeCallData(selector, calls, true).value;
            && Holds(bytes, 0, selector) && Holds(bytes, 4, [1])
            && Holds(bytes, 132, BigEndian(|calls|, 32))
            && Holds(bytes, 164 + 32 * i, BigEndian(p, 32))
            && Holds(bytes, 164 + p, BigEndian(calls[i].to, 32))
            && Holds(bytes, 164 + p + 32, BigEndian(ValueOf(calls[i]), 32))
            && Holds(bytes, 164 + p + 96, BigEndian(|DataOf(calls[i])|, 32))
            && Holds(bytes, 164 + p + 128, DataOf(calls[i]))
  {
    hide Digits, BigEndian, PackBatch, Padded, EncodeExecute, Holds, ExecutionAt, Mode;
    var bytes := EncodeCallData(selector, calls, true).value;
    var packed := PackBatch(Executions(calls));
    var at := ExecuteHolds(selector, true, packed);
    SelectorFirst(selector, true, packed);
    ModeStartsWith(bytes, true);
    PaddedHolds(bytes, 100, packed);
    var start := BatchHolds(Executions(calls));
    var offset;
    p, offset := ItemAt(Executions(calls), i);
    HoldsWithin(bytes, 100, packed, 32, BigEndian(|calls|, 32));
    HoldsWithin(bytes, 100, packed, 64 + 32 * i, BigEndian(p, 32));
    ExecutionWithin(bytes, 100, packed, 64 + p, Executions(calls)[i], offset);
  }

  lemma {:induction false} ModeStartsWith(bytes: Bytes, batch: bool)
    requires Holds(bytes, 4, Mode(batch))
    ensures Holds(bytes, 4, [if batch then 1 else 0])
  {
    HoldsBoth(bytes, 4, [if batch then 1 else 0], seq(31, _ => 0));
  }

  lemma {:induction false} ExecutionWithin(bytes: Bytes, at: nat, packed: Bytes, item: nat, e: Execution, offset: nat)
    requires Holds(bytes, at, packed) && ExecutionAt(packed, item, e, offset)
    ensures Holds(bytes, at + item, BigEndian(e.target, 32))
    ensures Holds(bytes, at + item + 32, BigEndian(e.value, 32))
    ensures Holds(bytes, at + item + 96, BigEndian(|e.calldata|, 32))
    ensures Holds(bytes, at + item + 128, e.calldata)
  {
    hide Holds, BigEndian, Padded;
    HoldsWithin(bytes, at, packed, item, BigEndian(e.target, 32));
    HoldsWithin(bytes, at, packed, item + 32, BigEndian(e.value, 32));
    HoldsWithin(bytes, at, packed, item + 96, BigEndian(|e.calldata|, 32));
    HoldsWithin(bytes, at, packed, item + 128, Padded(e.calldata));
    PaddedHolds(bytes, at + item + 128, e.calldata);
  }

  lemma {:induction false} SelectorFirst(selector: Bytes, batch: bool, calldata: Bytes)
    ensures Holds(EncodeExecute(selector, batch, calldata), 0, selector)
  {
  }

  // ----- Any bytes -----

  lemma {:induction false} CollectedAll(results: seq<Result<Execution, Error>>)
    requires Collect(results).Ok?
    ensures |Collect(results).value| == |results|
    ensures forall i :: 0 <= i < |results| ==> results[i] == Ok(Collect(results).value[i])
  {
    if results != [] {
      CollectedAll(results[..|results| - 1]);
    }
  }

  /** Whatever length a batch claims, the decoder returns no more executions than its pointers fit into the bytes. */
  lemma {:induction false} BatchSizeIsBounded(bytes: Bytes, strict: bool)
    requires DecodeBatch(bytes, strict).Ok?
    ensures 32 * |DecodeBatch(bytes, strict).value| < |bytes|
  {
    var u := ReadWord(bytes, 0, strict).value;
    var n := ReadWord(bytes, u, strict).value;
    var results := Decoded(bytes, u + 32, n, strict);
    CollectedAll(results);
    if n > 0 {
      assert results[n - 1].Ok?;
      assert ReadWord(bytes, u + 32 + 32 * (n - 1), strict).Ok?;
    }
  }
}
