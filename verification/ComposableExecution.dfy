/** What the account contract does with the parameters of a compiled step. */
module ComposableExecution {
  import opened Abi
  import opened UserOps
  import opened Wrappers
  import opened StepCompiler

  datatype Revert =
    | FetchFailed
    | ConstraintNotMet
    | InvalidParameterEncoding
    | TargetTwice
    | ValueTwice

  /** The call composed so far. */
  datatype Call = Call(target: Option<nat>, value: Option<nat>, calldata: Bytes)

  predicate Satisfies(c: Constraint, word: nat) {
    match c
    case EQ(reference) => word == reference
    case GTE(reference) => word >= reference
    case LTE(reference) => word <= reference
    case IN(lower, upper) => lower <= word <= upper
  }

  /** Word i of a value; past its end the contract reads whatever memory holds there. */
  function WordAt(bytes: Bytes, i: nat, beyond: seq<nat>): nat {
    if 32 * i + 32 <= |bytes| then Value(bytes[32 * i..32 * i + 32])
    else if i < |beyond| then beyond[i]
    else 0
  }

  /** The contract checks constraint i against word i. */
  predicate ConstraintsPass(bytes: Bytes, constraints: seq<Constraint>, beyond: seq<nat>) {
    forall i :: 0 <= i < |constraints| ==> Satisfies(constraints[i], WordAt(bytes, i, beyond))
  }

  ghost function Raw(world: World, p: InputParam): Option<Bytes> {
    match p.data
    case AbiEncoded(v) => Some(Encode(v))
    case Given(bytes) =>
      if p.fetcher.RAW_BYTES? then Some(bytes)
      else Fetch(world, if p.fetcher.BALANCE? then Balance else StaticCall, bytes)
  }

  ghost function Processed(world: World, beyond: seq<nat>, p: InputParam): Result<Bytes, Revert> {
    match Raw(world, p)
    case None => Err(FetchFailed)
    case Some(bytes) => if ConstraintsPass(bytes, p.constraints, beyond) then Ok(bytes) else Err(ConstraintNotMet)
  }

  function DecodeUint(bytes: Bytes): Result<nat, Revert> {
    if |bytes| < 32 then Err(InvalidParameterEncoding) else Ok(Value(bytes[..32]))
  }

  ghost function DecodeAddress(bytes: Bytes): Result<nat, Revert> {
    var word :- DecodeUint(bytes);
    if Fits(word, 20) then Ok(word) else Err(InvalidParameterEncoding)
  }

  ghost function Step(world: World, beyond: seq<nat>, call: Call, p: InputParam): Result<Call, Revert> {
    var bytes :- Processed(world, beyond, p);
    match p.paramType
    case TARGET =>
      if p.fetcher.BALANCE? then Err(InvalidParameterEncoding)
      else if call.target.Some? then Err(TargetTwice)
      else
        var target :- DecodeAddress(bytes);
        Ok(call.(target := Some(target)))
    case VALUE =>
      if call.value.Some? then Err(ValueTwice)
      else
        var value :- DecodeUint(bytes);
        Ok(call.(value := Some(value)))
    case CALL_DATA => Ok(call.(calldata := call.calldata + bytes))
  }

  /** The contract's loop over the parameters. */
  ghost function Run(world: World, beyond: seq<nat>, start: Call, params: seq<InputParam>): Result<Call, Revert> {
    if params == [] then Ok(start)
    else
      var call :- Run(world, beyond, start, params[..|params| - 1]);
      Step(world, beyond, call, params[|params| - 1])
  }

  ghost function Execute(world: World, beyond: seq<nat>, step: Composable): Result<Call, Revert> {
    Run(world, beyond, Call(None, None, step.functionSig), step.inputParams)
  }
}
