/**
 * The step compiler of the SDK: arguments with run-time values are lowered to a flat list
 * of input parameters, which the account contract fetches, checks and concatenates.
 */
module StepCompiler {
  import opened Abi
  import opened UserOps
  import opened Wrappers

  // ----- Parameters -----

  datatype Constraint = EQ(reference: nat) | GTE(reference: nat) | LTE(reference: nat) | IN(lower: nat, upper: nat)

  datatype Kind = Balance | StaticCall

  /** A value that is fetched when the step runs. */
  datatype DynamicParam = DynamicParam(kind: Kind, fetcherData: Bytes, constraints: seq<Constraint>) {
    /** gte, lte, eq and inRange: a new value with one more constraint. */
    function With(constraint: Constraint): DynamicParam {
      DynamicParam(kind, fetcherData, constraints + [constraint])
    }
  }

  datatype ParamType = TARGET | VALUE | CALL_DATA

  datatype Fetcher = RAW_BYTES | STATIC_CALL | BALANCE

  /** Bytes handed on as they are, or the encoding of a value. */
  datatype ParamData = Given(bytes: Bytes) | AbiEncoded(value: Abi)

  datatype InputParam = InputParam(paramType: ParamType, fetcher: Fetcher, data: ParamData, constraints: seq<Constraint>)

  datatype Composable = Composable(functionSig: Bytes, inputParams: seq<InputParam>)

  // ----- Types and arguments -----

  /** `DynamicData` is bytes or string. An unnamed component has the empty name. */
  datatype AbiType =
    | Scalar
    | DynamicData
    | Struct(components: seq<Component>)
    | FixedArray(element: AbiType, length: nat)
    | DynamicArray(element: AbiType)

  datatype Component = Component(name: string, abiType: AbiType)

  /** A JavaScript value: a scalar, bytes or a string, an object, an array, a run-time value, or nothing. */
  datatype Arg =
    | Literal(word: nat)
    | Data(bytes: Bytes)
    | Object(fields: map<string, Arg>)
    | Items(items: seq<Arg>)
    | Runtime(param: DynamicParam)
    | Undefined

  datatype AbiFunction = AbiFunction(name: string, inputs: seq<AbiType>, selector: Bytes)

  datatype Error = InvalidArgument | TooManyArguments | FunctionNotFound

  function Lookup(value: Arg, name: string): Arg {
    if value.Object? && name in value.fields then value.fields[name] else Undefined
  }

  function At(value: Arg, i: nat): Arg {
    if value.Items? && i < |value.items| then value.items[i] else Undefined
  }

  /** The size of a value depends on the value. */
  predicate IsDynamicType(t: AbiType)
    decreases t
  {
    match t
    case Scalar => false
    case DynamicData => true
    case Struct(components) => exists c :: c in components && IsDynamicType(c.abiType)
    case FixedArray(element, length) => length > 0 && IsDynamicType(element)
    case DynamicArray(_) => true
  }

  /** How many words the encoding of a value of type t takes, if t is not dynamic. */
  function Words(t: AbiType): nat
    decreases t, 0, 0
  {
    match t
    case Scalar => 1
    case Struct(components) => WordsOfAll(components)
    case FixedArray(element, length) => Times(length, Words(element))
    case _ => 0
  }

  function Times(count: nat, words: nat): nat {
    if count == 0 then 0 else Times(count - 1, words) + words
  }

  function WordsOfAll(components: seq<Component>): nat
    decreases components, 1, |components|
  {
    if components == [] then 0
    else WordsOfAll(components[..|components| - 1]) + Words(components[|components| - 1].abiType)
  }

  function Size(t: AbiType): nat {
    32 * Words(t)
  }

  // ----- The chain -----

  /** What the chain answers: the return data of static calls, and balances as encoded words. */
  datatype World = World(calls: map<Bytes, Bytes>, balances: map<Bytes, Bytes>)

  const NO_WORLD := World(map[], map[])

  /** A balance is asked for with a token and an account of 20 bytes each. */
  function Fetch(world: World, kind: Kind, data: Bytes): Option<Bytes> {
    if kind.StaticCall? then
      if data in world.calls then Some(world.calls[data]) else None
    else
      if |data| == 40 && data in world.balances then Some(world.balances[data]) else None
  }

  // ----- What an argument stands for -----

  /** The ABI value of an argument that has no run-time values in it. */
  function Plain(value: Arg, t: AbiType): Result<Abi, Error>
    decreases t, 0, 0
  {
    match t
    case Scalar => if value.Literal? then Ok(Word(value.word)) else Err(InvalidArgument)
    case DynamicData => if value.Data? then Ok(Blob(value.bytes)) else Err(InvalidArgument)
    case Struct(components) =>
      if value.Runtime? then Err(InvalidArgument)
      else
        var items :- PlainFields(components, value);
        Ok(Tuple(items))
    case FixedArray(element, length) =>
      if value.Items? && |value.items| == length then
        var items :- PlainItems(value.items, element);
        Ok(Tuple(items))
      else Err(InvalidArgument)
    case DynamicArray(element) =>
      if value.Items? then
        var items :- PlainItems(value.items, element);
        Ok(List(items))
      else Err(InvalidArgument)
  }

  /** A struct's fields, by position in an array and by name otherwise. */
  function PlainFields(components: seq<Component>, value: Arg): Result<seq<Abi>, Error>
    decreases components, 1, |components|
  {
    if components == [] then Ok([])
    else
      var n := |components| - 1;
      var front :- PlainFields(components[..n], value);
      var last :- Plain(Field(value, n, components[n].name), components[n].abiType);
      Ok(front + [last])
  }

  function Field(value: Arg, i: nat, name: string): Arg {
    if value.Items? then At(value, i) else Lookup(value, name)
  }

  function PlainItems(items: seq<Arg>, element: AbiType): Result<seq<Abi>, Error>
    decreases element, 1, |items|
  {
    if items == [] then Ok([])
    else
      var front :- PlainItems(items[..|items| - 1], element);
      var last :- Plain(items[|items| - 1], element);
      Ok(front + [last])
  }

  // ----- Compiling -----

  function DynamicToInputParam(param: DynamicParam, paramType: ParamType): InputParam {
    InputParam(paramType, if param.kind.Balance? then BALANCE else STATIC_CALL, Given(param.fetcherData), param.constraints)
  }

  /** A value is encoded by itself, as the only member of a tuple. */
  function StaticToInputParam(value: Arg, t: AbiType, paramType: ParamType): Result<InputParam, Error> {
    var encoded :- Plain(value, t);
    Ok(InputParam(paramType, RAW_BYTES, AbiEncoded(Tuple([encoded])), []))
  }

  predicate IsFlattened(value: Arg, t: AbiType) {
    t.Struct? && (value.Object? || value.Items?)
  }

  /** Structs given as objects become one parameter per field; unnamed fields are passed over. */
  function Flattened(value: Arg, t: AbiType): Result<seq<InputParam>, Error>
    decreases t, 0, 0
  {
    if IsFlattened(value, t) then FlattenedFields(t.components, value)
    else if value.Runtime? then Ok([DynamicToInputParam(value.param, CALL_DATA)])
    else
      var param :- StaticToInputParam(value, t, CALL_DATA);
      Ok([param])
  }

  function FlattenedFields(components: seq<Component>, value: Arg): Result<seq<InputParam>, Error>
    decreases components, 1, |components|
  {
    if components == [] then Ok([])
    else
      var last := components[|components| - 1];
      var front :- FlattenedFields(components[..|components| - 1], value);
      if last.name == "" then Ok(front)
      else
        var params :- Flattened(Lookup(value, last.name), last.abiType);
        Ok(front + params)
  }

  lemma {:induction false} FirstFieldErrorDecides(components: seq<Component>, value: Arg, i: nat)
    requires i <= |components| && FlattenedFields(components[..i], value).Err?
    ensures FlattenedFields(components, value) == FlattenedFields(components[..i], value)
  {
    if i < |components| {
      assert components[..|components| - 1][..i] == components[..i];
      FirstFieldErrorDecides(components[..|components| - 1], value, i);
    } else {
      assert components[..i] == components;
    }
  }

  method FlattenArg(value: Arg, t: AbiType) returns (r: Result<seq<InputParam>, Error>)
    ensures r == Flattened(value, t)
    decreases t
  {
    hide StaticToInputParam, DynamicToInputParam, Lookup;
    if IsFlattened(value, t) {
      var components := t.components;
      var params: seq<InputParam> := [];
      for i := 0 to |components|
        invariant FlattenedFields(components[..i], value) == Ok(params)
      {
        var component := components[i];
        assert components[..i + 1][..i] == components[..i];
        if component.name != "" {
          var flattened := FlattenArg(Lookup(value, component.name), component.abiType);
          if flattened.Err? {
            FirstFieldErrorDecides(components, value, i + 1);
            return flattened;
          }
          params := params + flattened.value;
        }
      }
      assert components[..|components|] == components;
      return Ok(params);
    }
    if value.Runtime? {
      return Ok([DynamicToInputParam(value.param, CALL_DATA)]);
    }
    var param :- StaticToInputParam(value, t, CALL_DATA);
    return Ok([param]);
  }

  // ----- Steps -----

  /** A target or value is given, or fetched; it takes one parameter of its own. */
  function WordParam(value: Arg, paramType: ParamType): Result<InputParam, Error> {
    if value.Runtime? then Ok(DynamicToInputParam(value.param, paramType)) else StaticToInputParam(value, Scalar, paramType)
  }

  function FlattenedArgs(args: seq<Arg>, inputs: seq<AbiType>): Result<seq<InputParam>, Error> {
    if args == [] then Ok([])
    else
      var n := |args| - 1;
      var front :- FlattenedArgs(args[..n], inputs);
      if n >= |inputs| then Err(TooManyArguments)
      else
        var params :- Flattened(args[n], inputs[n]);
        Ok(front + params)
  }

  function FirstNamed(abi: seq<AbiFunction>, name: string): (found: Option<AbiFunction>)
    ensures found.None? ==> forall f :: f in abi ==> f.name != name
    ensures found.Some? ==> found.value in abi && found.value.name == name
  {
    if abi == [] then None else if abi[0].name == name then Some(abi[0]) else FirstNamed(abi[1..], name)
  }

  function Compiled(to: Arg, abi: seq<AbiFunction>, name: string, args: seq<Arg>, value: Option<Arg>): Result<Composable, Error> {
    var target :- WordParam(to, TARGET);
    var values :- ValueParams(value);
    match FirstNamed(abi, name)
    case None => Err(FunctionNotFound)
    case Some(f) =>
      var params :- FlattenedArgs(args, f.inputs);
      Ok(Composable(f.selector, [target] + values + params))
  }

  function ValueParams(value: Option<Arg>): Result<seq<InputParam>, Error> {
    if value.None? then Ok([])
    else
      var param :- WordParam(value.value, VALUE);
      Ok([param])
  }

  lemma {:induction false} FirstArgErrorDecides(args: seq<Arg>, inputs: seq<AbiType>, i: nat)
    requires i <= |args| && FlattenedArgs(args[..i], inputs).Err?
    ensures FlattenedArgs(args, inputs) == FlattenedArgs(args[..i], inputs)
  {
    if i < |args| {
      assert args[..|args| - 1][..i] == args[..i];
      FirstArgErrorDecides(args[..|args| - 1], inputs, i);
    } else {
      assert args[..i] == args;
    }
  }

  method EncodeStep(to: Arg, abi: seq<AbiFunction>, functionName: string, args: seq<Arg>, value: Option<Arg>)
      returns (r: Result<Composable, Error>)
    ensures r == Compiled(to, abi, functionName, args, value)
  {
    hide Flattened, WordParam;
    var inputParams: seq<InputParam> := [];
    var target :- WordParam(to, TARGET);
    inputParams := inputParams + [target];
    if value.Some? {
      var param :- WordParam(value.value, VALUE);
      inputParams := inputParams + [param];
    }
    ghost var header := inputParams;
    var abiFunction := FirstNamed(abi, functionName);
    if abiFunction.None? {
      return Err(FunctionNotFound);
    }
    var abiInputs := abiFunction.value.inputs;
    ghost var params: seq<InputParam> := [];
    for i := 0 to |args|
      invariant FlattenedArgs(args[..i], abiInputs) == Ok(params) && inputParams == header + params
    {
      assert args[..i + 1][..i] == args[..i];
      if i >= |abiInputs| {
        FirstArgErrorDecides(args, abiInputs, i + 1);
        return Err(TooManyArguments);
      }
      var flattened := FlattenArg(args[i], abiInputs[i]);
      if flattened.Err? {
        FirstArgErrorDecides(args, abiInputs, i + 1);
        return Err(flattened.error);
      }
      params := params + flattened.value;
      inputParams := inputParams + flattened.value;
    }
    assert args[..|args|] == args;
    assert inputParams == [target] + ValueParams(value).value + params;
    return Ok(Composable(abiFunction.value.selector, inputParams));
  }

  /** A predicate has no target: it only fetches and checks. */
  function EncodePredicate(conditions: seq<DynamicParam>): (step: Composable)
    ensures |step.inputParams| == |conditions|
  {
    Composable([0, 0, 0, 0],
               seq(|conditions|, i requires 0 <= i < |conditions| => DynamicToInputParam(conditions[i], CALL_DATA)))
  }
}
