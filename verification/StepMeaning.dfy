/** Compiling a step and running it: when it runs through, and when the call is the one that is meant. */
module StepMeaning {
  import opened Abi
  import opened UserOps
  import opened Wrappers
  import opened SeparateEncoding
  import opened StepCompiler
  import opened ArgMeaning
  import opened ComposableExecution
  import opened StepChecks

  // ----- What arguments mean -----

  /** The chain's answer to a run-time value is the encoding of the value. */
  ghost predicate IsAnswered(param: DynamicParam, t: AbiType, v: Abi, world: World) {
    HasType(v, t) && Fetch(world, param.kind, param.fetcherData) == Some(Alone(v))
  }

  /**
   * The argument means the value: a run-time value what the chain answers, a struct the values of its
   * entries, which may be run-time values, and anything else what it stands for.
   */
  ghost predicate Means(value: Arg, t: AbiType, v: Abi, world: World)
    decreases t
  {
    if value.Runtime? then IsAnswered(value.param, t, v, world)
    else if t.Struct? && (value.Object? || value.Items?) then
      && v.Tuple? && |v.items| == |t.components|
      && forall i :: 0 <= i < |t.components| ==>
           Means(Entry(value, i, t.components[i].name), t.components[i].abiType, v.items[i], world)
    else StandsFor(value, t, v)
  }

  ghost predicate FieldsMean(components: seq<Component>, value: Arg, items: seq<Abi>, world: World) {
    && |items| == |components|
    && forall i :: 0 <= i < |components| ==>
         Means(Entry(value, i, components[i].name), components[i].abiType, items[i], world)
  }

  /** The arguments given mean the values, one by one. */
  ghost predicate ArgsMean(args: seq<Arg>, inputs: seq<AbiType>, items: seq<Abi>, world: World) {
    |items| == |args| <= |inputs| && forall i :: 0 <= i < |args| ==> Means(args[i], inputs[i], items[i], world)
  }

  lemma {:induction false} MeansTyped(value: Arg, t: AbiType, v: Abi, world: World)
    requires Means(value, t, v, world)
    ensures HasType(v, t)
    decreases t
  {
    if value.Runtime? {
    } else if t.Struct? && (value.Object? || value.Items?) {
      forall i | 0 <= i < |t.components| ensures HasType(v.items[i], t.components[i].abiType) {
        MeansTyped(Entry(value, i, t.components[i].name), t.components[i].abiType, v.items[i], world);
      }
    } else {
      StandsForTyped(value, t, v);
    }
  }

  /** What an argument means is dynamic exactly if its type is, and otherwise has its type's size. */
  lemma {:induction false} MeansShaped(value: Arg, t: AbiType, v: Abi, world: World)
    requires Means(value, t, v, world)
    ensures HasShape(v, t)
  {
    MeansTyped(value, t, v, world);
    TypedShape(v, t);
  }

  /** An answer of the size of a static type always means something. */
  lemma {:induction false} StaticAnswerMeans(param: DynamicParam, t: AbiType, world: World) returns (v: Abi)
    requires !IsDynamicType(t) && Fetch(world, param.kind, param.fetcherData).Some?
    requires |Fetch(world, param.kind, param.fetcherData).value| == Size(t)
    ensures Means(Runtime(param), t, v, world)
  {
    v := StaticAnswer(Fetch(world, param.kind, param.fetcherData).value, t);
    TypedShape(v, t);
    StaticAlone(v);
  }

  // ----- When a step runs through -----

  lemma {:induction false} RunSplit(world: World, beyond: seq<nat>, start: Call, a: seq<InputParam>, b: seq<InputParam>)
    ensures Run(world, beyond, start, a + b) ==
            match Run(world, beyond, start, a)
            case Err(e) => Err(e)
            case Ok(call) => Run(world, beyond, call, b)
  {
    if b == [] {
      assert a + b == a;
    } else {
      assert (a + b)[..|a + b| - 1] == a + b[..|b| - 1];
      RunSplit(world, beyond, start, a, b[..|b| - 1]);
    }
  }

  lemma {:induction false} RunNothing(world: World, beyond: seq<nat>, start: Call)
    ensures Run(world, beyond, start, []) == Ok(start)
  {
  }

  /** The bytes that the parameters of an argument put into the call data. */
  ghost function Laid(value: Arg, t: AbiType, world: World): Bytes
    decreases t, 0, 0
  {
    if IsFlattened(value, t) then LaidFields(t.components, value, world)
    else if value.Runtime? then
      match Fetch(world, value.param.kind, value.param.fetcherData)
      case Some(bytes) => bytes
      case None => []
    else
      match Plain(value, t)
      case Ok(v) => Alone(v)
      case Err(_) => []
  }

  ghost function LaidFields(components: seq<Component>, value: Arg, world: World): Bytes
    decreases components, 1, |components|
  {
    if components == [] then []
    else
      var last := components[|components| - 1];
      LaidFields(components[..|components| - 1], value, world)
      + if last.name == "" then [] else Laid(Lookup(value, last.name), last.abiType, world)
  }

  ghost function LaidArgs(args: seq<Arg>, inputs: seq<AbiType>, world: World): Bytes
    requires |args| <= |inputs|
  {
    if args == [] then []
    else
      var n := |args| - 1;
      LaidArgs(args[..n], inputs, world) + Laid(args[n], inputs[n], world)
  }

  /** Every run-time value that reaches the call can be fetched and meets its constraints. */
  ghost predicate ArgHolds(value: Arg, t: AbiType, world: World, beyond: seq<nat>)
    decreases t
  {
    if IsFlattened(value, t) then
      forall c :: c in t.components && c.name != "" ==> ArgHolds(Lookup(value, c.name), c.abiType, world, beyond)
    else value.Runtime? ==> ConditionHolds(value.param, world, beyond)
  }

  ghost predicate FieldsHold(components: seq<Component>, value: Arg, world: World, beyond: seq<nat>) {
    forall c :: c in components && c.name != "" ==> ArgHolds(Lookup(value, c.name), c.abiType, world, beyond)
  }

  ghost predicate ArgsHold(args: seq<Arg>, inputs: seq<AbiType>, world: World, beyond: seq<nat>) {
    forall i :: 0 <= i < |args| && i < |inputs| ==> ArgHolds(args[i], inputs[i], world, beyond)
  }

  /** Running the parameters of an argument appends its bytes, and runs through exactly if its run-time values hold. */
  lemma {:induction false} FlattenedRuns(value: Arg, t: AbiType, world: World, beyond: seq<nat>, start: Call)
    requires Flattened(value, t).Ok?
    ensures var end := Run(world, beyond, start, Flattened(value, t).value);
            && (end.Ok? <==> ArgHolds(value, t, world, beyond))
            && (end.Ok? ==> end.value == start.(calldata := start.calldata + Laid(value, t, world)))
    decreases t, 0, 0
  {
    if IsFlattened(value, t) {
      hide Run;
      FlattenedFieldsRun(t.components, value, world, beyond, start);
    } else {
      SingleParamRuns(value, t, world, beyond, start);
    }
  }

  lemma {:induction false} SingleParamRuns(value: Arg, t: AbiType, world: World, beyond: seq<nat>, start: Call)
    requires !IsFlattened(value, t) && Flattened(value, t).Ok?
    ensures var end := Run(world, beyond, start, Flattened(value, t).value);
            && (end.Ok? <==> ArgHolds(value, t, world, beyond))
            && (end.Ok? ==> end.value == start.(calldata := start.calldata + Laid(value, t, world)))
  {
    hide Digits, Encode, Plain, ConstraintsPass, Run;
    var params := Flattened(value, t).value;
    RunOne(world, beyond, start, params[0]);
    if !value.Runtime? {
      NoConstraintsPass(Alone(Plain(value, t).value), beyond);
    }
  }

  lemma NoConstraintsPass(bytes: Bytes, beyond: seq<nat>)
    ensures ConstraintsPass(bytes, [], beyond)
  {
  }

  lemma {:induction false} RunOne(world: World, beyond: seq<nat>, start: Call, p: InputParam)
    ensures Run(world, beyond, start, [p]) == Step(world, beyond, start, p)
  {
    hide Step;
    assert [p][..0] == [];
  }

  lemma {:induction false} FieldsHoldSnoc(
      front: seq<Component>, last: Component, value: Arg, world: World, beyond: seq<nat>)
    ensures FieldsHold(front + [last], value, world, beyond) <==>
            && FieldsHold(front, value, world, beyond)
            && (last.name != "" ==> ArgHolds(Lookup(value, last.name), last.abiType, world, beyond))
  {
    hide ArgHolds, Lookup;
    assert last in front + [last];
  }

  lemma Associate(a: Bytes, b: Bytes, c: Bytes)
    ensures a + (b + c) == a + b + c
  {
  }

  lemma NothingLaid(a: Bytes)
    ensures a + [] == a
  {
  }

  lemma NoFieldHolds(value: Arg, world: World, beyond: seq<nat>)
    ensures FieldsHold([], value, world, beyond)
  {
  }

  lemma {:induction false} FlattenedFieldsRun(
      components: seq<Component>, value: Arg, world: World, beyond: seq<nat>, start: Call)
    requires FlattenedFields(components, value).Ok?
    ensures var end := Run(world, beyond, start, FlattenedFields(components, value).value);
            && (end.Ok? <==> FieldsHold(components, value, world, beyond))
            && (end.Ok? ==> end.value == start.(calldata := start.calldata + LaidFields(components, value, world)))
    decreases components, 1, |components|
  {
    hide Run, Step, Flattened, Laid, ArgHolds, FieldsHold, Lookup, Digits;
    RunNothing(world, beyond, start);
    if components == [] {
      NoFieldHolds(value, world, beyond);
      NothingLaid(start.calldata);
    } else {
      var n := |components| - 1;
      var front, c := components[..n], components[n];
      var first := FlattenedFields(front, value).value;
      var params := if c.name == "" then [] else Flattened(Lookup(value, c.name), c.abiType).value;
      assert components == front + [c];
      assert FlattenedFields(components, value).value == first + params;
      RunSplit(world, beyond, start, first, params);
      FlattenedFieldsRun(front, value, world, beyond, start);
      FieldsHoldSnoc(front, c, value, world, beyond);
      if Run(world, beyond, start, first).Ok? {
        var middle := Run(world, beyond, start, first).value;
        var last := if c.name == "" then [] else Laid(Lookup(value, c.name), c.abiType, world);
        Associate(start.calldata, LaidFields(front, value, world), last);
        if c.name == "" {
          RunNothing(world, beyond, middle);
          NothingLaid(middle.calldata);
        } else {
          FlattenedRuns(Lookup(value, c.name), c.abiType, world, beyond, middle);
        }
      }
    }
  }

  lemma {:induction false} FlattenedArgsFit(args: seq<Arg>, inputs: seq<AbiType>)
    requires FlattenedArgs(args, inputs).Ok?
    ensures |args| <= |inputs|
  {
  }

  lemma {:induction false} FlattenedArgsRun(
      args: seq<Arg>, inputs: seq<AbiType>, world: World, beyond: seq<nat>, start: Call)
    requires FlattenedArgs(args, inputs).Ok?
    ensures |args| <= |inputs|
    ensures var end := Run(world, beyond, start, FlattenedArgs(args, inputs).value);
            && (end.Ok? <==> ArgsHold(args, inputs, world, beyond))
            && (end.Ok? ==> end.value == start.(calldata := start.calldata + LaidArgs(args, inputs, world)))
  {
    hide Run, Step, Flattened, Laid, ArgHolds, Digits;
    RunNothing(world, beyond, start);
    FlattenedArgsFit(args, inputs);
    if args == [] {
      NothingLaid(start.calldata);
    } else {
      var n := |args| - 1;
      var first, params := FlattenedArgs(args[..n], inputs).value, Flattened(args[n], inputs[n]).value;
      RunSplit(world, beyond, start, first, params);
      FlattenedArgsRun(args[..n], inputs, world, beyond, start);
      assert ArgsHold(args, inputs, world, beyond) <==>
             ArgsHold(args[..n], inputs, world, beyond) && ArgHolds(args[n], inputs[n], world, beyond);
      if Run(world, beyond, start, first).Ok? {
        FlattenedRuns(args[n], inputs[n], world, beyond, Run(world, beyond, start, first).value);
        Associate(start.calldata, LaidArgs(args[..n], inputs, world), Laid(args[n], inputs[n], world));
      }
    }
  }

  /** The word that a target or value stands for; a longer answer counts with its first word. */
  function WordMeant(value: Arg, world: World): Option<nat> {
    match value
    case Literal(word) => Some(word)
    case Runtime(param) =>
      (match Fetch(world, param.kind, param.fetcherData)
       case Some(bytes) => if |bytes| < 32 then None else Some(Value(bytes[..32]))
       case None => None)
    case _ => None
  }

  /** The call with the target and the value that are meant. */
  function CallMeant(to: Arg, value: Option<Arg>, calldata: Bytes, world: World): Call {
    Call(WordMeant(to, world), if value.Some? then WordMeant(value.value, world) else None, calldata)
  }

  ghost predicate IsWord(value: Arg) {
    value.Literal? ==> Fits(value.word, 32)
  }

  /** A run-time target is the return data of a call, and its first word is an address. */
  ghost predicate TargetHolds(to: Arg, world: World, beyond: seq<nat>) {
    && (to.Runtime? ==> to.param.kind.StaticCall? && ConditionHolds(to.param, world, beyond))
    && WordMeant(to, world).Some? && Fits(WordMeant(to, world).value, 20)
  }

  ghost predicate ValueHolds(value: Option<Arg>, world: World, beyond: seq<nat>) {
    value.Some? ==>
      && (value.value.Runtime? ==> ConditionHolds(value.value.param, world, beyond))
      && WordMeant(value.value, world).Some?
  }

  function DecodedAs(word: Option<nat>): Result<nat, Revert> {
    if word.Some? then Ok(word.value) else Err(InvalidParameterEncoding)
  }

  /** A target or value is fetched as its condition says, and what is decoded is the word meant. */
  lemma {:induction false} WordParamMeans(value: Arg, paramType: ParamType, world: World, beyond: seq<nat>)
    requires IsWord(value) && WordParam(value, paramType).Ok?
    ensures var bytes := Processed(world, beyond, WordParam(value, paramType).value);
            && (bytes.Ok? <==> (value.Runtime? ==> ConditionHolds(value.param, world, beyond)))
            && (bytes.Ok? ==>
                  DecodeUint(bytes.value) == DecodedAs(WordMeant(value, world)))
  {
    hide Digits, ConstraintsPass, Encode;
    if value.Literal? {
      WordAlone(value.word);
      NoConstraintsPass(Alone(Word(value.word)), beyond);
    }
  }

  lemma {:induction false} WordAlone(n: nat)
    ensures Alone(Word(n)) == BigEndian(n, 32) && BigEndian(n, 32)[..32] == BigEndian(n, 32)
  {
    StaticAlone(Word(n));
  }

  /** When the header parameters run through, and the call that the others start from. */
  lemma {:induction false} HeaderRuns(to: Arg, value: Option<Arg>, world: World, beyond: seq<nat>, sig: Bytes)
    requires WordParam(to, TARGET).Ok? && ValueParams(value).Ok?
    requires IsWord(to) && (value.Some? ==> IsWord(value.value))
    ensures var end := Run(world, beyond, Call(None, None, sig), [WordParam(to, TARGET).value] + ValueParams(value).value);
            && (end.Ok? <==> TargetHolds(to, world, beyond) && ValueHolds(value, world, beyond))
            && (end.Ok? ==> end.value == CallMeant(to, value, sig, world))
  {
    hide Processed, Digits, Fits, DecodeUint, WordMeant, ConditionHolds, Run;
    var start, target, values := Call(None, None, sig), WordParam(to, TARGET).value, ValueParams(value).value;
    RunSplit(world, beyond, start, [target], values);
    RunOne(world, beyond, start, target);
    WordParamMeans(to, TARGET, world, beyond);
    if Step(world, beyond, start, target).Ok? {
      var middle := Step(world, beyond, start, target).value;
      if value.Some? {
        RunOne(world, beyond, middle, values[0]);
        WordParamMeans(value.value, VALUE, world, beyond);
      } else {
        RunNothing(world, beyond, middle);
      }
    }
  }

  ghost predicate StepHolds(
      to: Arg, value: Option<Arg>, args: seq<Arg>, inputs: seq<AbiType>, world: World, beyond: seq<nat>)
  {
    TargetHolds(to, world, beyond) && ValueHolds(value, world, beyond) && ArgsHold(args, inputs, world, beyond)
  }

  /**
   * Exactly when a compiled step runs through: its target is an address that no balance stands for, a
   * run-time value word can be decoded, and every run-time value can be fetched and meets its
   * constraints. The call then has the selector and the bytes of the arguments.
   */
  lemma {:induction false} CompiledStepRunsIff(
      to: Arg, abi: seq<AbiFunction>, name: string, args: seq<Arg>, value: Option<Arg>, f: AbiFunction,
      world: World, beyond: seq<nat>)
    requires Compiled(to, abi, name, args, value).Ok? && FirstNamed(abi, name) == Some(f)
    requires IsWord(to) && (value.Some? ==> IsWord(value.value))
    ensures |args| <= |f.inputs|
    ensures var end := Execute(world, beyond, Compiled(to, abi, name, args, value).value);
            && (end.Ok? <==> StepHolds(to, value, args, f.inputs, world, beyond))
            && (end.Ok? ==> end.value == CallMeant(to, value, f.selector + LaidArgs(args, f.inputs, world), world))
  {
    hide WordMeant, IsWord, Run, FlattenedArgs, WordParam, ValueParams, TargetHolds, ValueHolds, ArgsHold, LaidArgs;
    var start := Call(None, None, f.selector);
    var header := [WordParam(to, TARGET).value] + ValueParams(value).value;
    var params := FlattenedArgs(args, f.inputs).value;
    RunSplit(world, beyond, start, header, params);
    HeaderRuns(to, value, world, beyond, f.selector);
    FlattenedArgsFit(args, f.inputs);
    if Run(world, beyond, start, header).Ok? {
      FlattenedArgsRun(args, f.inputs, world, beyond, Run(world, beyond, start, header).value);
    }
  }

  // ----- When the call is the one that is meant -----

  /** Every type takes some room. */
  predicate IsInhabited(t: AbiType)
    decreases t
  {
    && (IsDynamicType(t) || Words(t) > 0)
    && (t.Struct? ==> forall c :: c in t.components ==> IsInhabited(c.abiType))
  }

  /** Every struct that is flattened is an object whose type names all its components. */
  predicate NamedOnly(value: Arg, t: AbiType)
    decreases t
  {
    IsFlattened(value, t) ==>
      && value.Object?
      && forall c :: c in t.components ==> c.name != "" && NamedOnly(Lookup(value, c.name), c.abiType)
  }

  /** The parameters yield the argument's own encoding: nothing is passed over, and no struct of a dynamic type is flattened. */
  predicate IsKept(value: Arg, t: AbiType) {
    NamedOnly(value, t) && (IsFlattened(value, t) ==> !IsDynamicType(t))
  }

  lemma {:induction false} AloneHasRoom(v: Abi, t: AbiType)
    requires HasType(v, t) && (IsDynamicType(t) || Words(t) > 0)
    ensures |Alone(v)| > 0
  {
    hide Encode, IsDynamic, Alone, Words;
    TypedShape(v, t);
    if IsDynamic(v) {
      DynamicAlone(v);
    } else {
      StaticAlone(v);
    }
  }

  lemma {:induction false} BlocksSnoc(items: seq<Abi>, last: Abi)
    ensures Flatten(Blocks(items + [last])) == Flatten(Blocks(items)) + Alone(last)
  {
    hide Alone;
    assert Blocks(items + [last]) == Blocks(items) + [Alone(last)];
    FlattenSnoc(Blocks(items), Alone(last));
  }

  /** An argument's bytes against its own encoding: never more, and as many only if they are the same. */
  lemma {:induction false} LaidOrLess(value: Arg, t: AbiType, v: Abi, world: World)
    requires Flattened(value, t).Ok? && Means(value, t, v, world)
    ensures var laid, alone := Laid(value, t, world), Alone(v);
            && (IsKept(value, t) ==> laid == alone)
            && (IsInhabited(t) ==> |laid| <= |alone| && (|laid| == |alone| ==> IsKept(value, t)))
    decreases t, 0, 0
  {
    if !IsFlattened(value, t) {
      LaidAlone(value, t, v, world);
    } else if value.Items? {
      ItemsOrLess(value, t, v, world);
    } else {
      LaidFieldsOrLess(t.components, value, v.items, world);
      StructOrLess(value, t, v, world);
    }
  }

  lemma {:induction false} LaidAlone(value: Arg, t: AbiType, v: Abi, world: World)
    requires !IsFlattened(value, t) && Means(value, t, v, world)
    ensures Laid(value, t, world) == Alone(v)
  {
    hide Plain, Alone, HasType;
    if !value.Runtime? {
      StandsForPlain(value, t, v);
    }
  }

  lemma {:induction false} UndefinedIsRefused(t: AbiType)
    requires IsInhabited(t)
    ensures Plain(Undefined, t).Err?
    decreases t
  {
    if t.Struct? {
      var last := LastComponent(t);
      UndefinedIsRefused(last.abiType);
    }
  }

  lemma {:induction false} LastComponent(t: AbiType) returns (last: Component)
    requires t.Struct? && IsInhabited(t)
    ensures t.components != [] && last == t.components[|t.components| - 1]
    ensures last in t.components && IsInhabited(last.abiType)
  {
    assert t.components == [] ==> Words(t) == 0;
    last := t.components[|t.components| - 1];
  }

  /** A struct given as an array is compiled only if all its components are passed over. */
  lemma {:induction false} ArrayFieldsAreUnnamed(components: seq<Component>, value: Arg, world: World)
    requires value.Items? && FlattenedFields(components, value).Ok?
    requires forall c :: c in components ==> IsInhabited(c.abiType)
    ensures forall c :: c in components ==> c.name == ""
    ensures LaidFields(components, value, world) == []
  {
    hide IsInhabited, Plain, Laid;
    if components != [] {
      var n := |components| - 1;
      var last := components[n];
      assert components == components[..n] + [last];
      assert last in components;
      UndefinedIsRefused(last.abiType);
      ArrayFieldsAreUnnamed(components[..n], value, world);
    }
  }

  lemma {:induction false} ItemsOrLess(value: Arg, t: AbiType, v: Abi, world: World)
    requires t.Struct? && value.Items? && Flattened(value, t).Ok? && Means(value, t, v, world)
    ensures !IsKept(value, t)
    ensures IsInhabited(t) ==> |Laid(value, t, world)| < |Alone(v)|
  {
    if IsInhabited(t) {
      MeansTyped(value, t, v, world);
      hide Means, HasType, Alone, Words;
      ArrayFieldsAreUnnamed(t.components, value, world);
      AloneHasRoom(v, t);
    }
  }

  ghost predicate FieldsKept(components: seq<Component>, value: Arg) {
    forall c :: c in components ==> c.name != "" && IsKept(Lookup(value, c.name), c.abiType)
  }

  ghost predicate AllInhabited(components: seq<Component>) {
    forall c :: c in components ==> IsInhabited(c.abiType)
  }

  lemma {:induction false} LaidFieldsOrLess(components: seq<Component>, value: Arg, items: seq<Abi>, world: World)
    requires value.Object? && FlattenedFields(components, value).Ok? && FieldsMean(components, value, items, world)
    ensures var laid, blocks := LaidFields(components, value, world), Flatten(Blocks(items));
            && (FieldsKept(components, value) ==> laid == blocks)
            && (AllInhabited(components) ==> |laid| <= |blocks| && (|laid| == |blocks| ==> FieldsKept(components, value)))
    decreases components, 1, |components|
  {
    hide Flattened, Laid, Means, IsKept, IsInhabited, Alone, Words, HasType;
    if components != [] {
      var n := |components| - 1;
      var front, c, v := components[..n], components[n], items[n];
      var field := Lookup(value, c.name);
      assert components == front + [c] && items == items[..n] + [v];
      assert c in components && field == Entry(value, n, c.name);
      LaidFieldsOrLess(front, value, items[..n], world);
      BlocksSnoc(items[..n], v);
      if c.name != "" {
        LaidOrLess(field, c.abiType, v, world);
      } else if AllInhabited(components) {
        InhabitedHasRoom(c.abiType);
        MeansTyped(field, c.abiType, v, world);
        AloneHasRoom(v, c.abiType);
      }
    }
  }

  lemma InhabitedHasRoom(t: AbiType)
    requires IsInhabited(t)
    ensures IsDynamicType(t) || Words(t) > 0
  {
  }

  /** A struct of a dynamic type is preceded by an offset, which its flattened fields are not. */
  lemma {:induction false} StructOrLess(value: Arg, t: AbiType, v: Abi, world: World)
    requires t.Struct? && value.Object? && Means(value, t, v, world)
    requires FieldsKept(t.components, value) ==> LaidFields(t.components, value, world) == Flatten(Blocks(v.items))
    requires AllInhabited(t.components) ==>
               var laid, blocks := LaidFields(t.components, value, world), Flatten(Blocks(v.items));
               |laid| <= |blocks| && (|laid| == |blocks| ==> FieldsKept(t.components, value))
    ensures var laid, alone := Laid(value, t, world), Alone(v);
            && (IsKept(value, t) ==> laid == alone)
            && (IsInhabited(t) ==> |laid| <= |alone| && (|laid| == |alone| ==> IsKept(value, t)))
  {
    hide Alone, Blocks, Encode, IsDynamic, AllStatic, LaidFields;
    MeansShaped(value, t, v, world);
    SameSize(v.items);
    assert v == Tuple(v.items);
    if IsDynamicType(t) {
      DynamicAlone(v);
    } else {
      StaticStructKept(value, t);
      StaticAlone(v);
      TupleShape(v.items);
      SeparateIff(v.items);
    }
  }

  /** In a struct of a static type there is nothing to lose but unnamed components. */
  lemma {:induction false} StaticStructKept(value: Arg, t: AbiType)
    requires t.Struct? && value.Object? && !IsDynamicType(t)
    ensures FieldsKept(t.components, value) <==> IsKept(value, t)
  {
    assert forall c :: c in t.components ==> !IsDynamicType(c.abiType);
  }

  ghost predicate ArgsKept(args: seq<Arg>, inputs: seq<AbiType>) {
    forall i :: 0 <= i < |args| && i < |inputs| ==> IsKept(args[i], inputs[i])
  }

  lemma {:induction false} LaidArgsOrLess(args: seq<Arg>, inputs: seq<AbiType>, items: seq<Abi>, world: World)
    requires FlattenedArgs(args, inputs).Ok? && ArgsMean(args, inputs, items, world)
    ensures var laid, blocks := LaidArgs(args, inputs, world), Flatten(Blocks(items));
            && (ArgsKept(args, inputs) ==> laid == blocks)
            && ((forall t :: t in inputs ==> IsInhabited(t)) ==>
                  |laid| <= |blocks| && (|laid| == |blocks| ==> ArgsKept(args, inputs)))
  {
    hide Flattened, Laid, Means, IsKept, IsInhabited, Alone;
    if args != [] {
      var n := |args| - 1;
      LaidArgsOrLess(args[..n], inputs, items[..n], world);
      assert items == items[..n] + [items[n]];
      BlocksSnoc(items[..n], items[n]);
      LaidOrLess(args[n], inputs[n], items[n], world);
      assert inputs[n] in inputs;
      assert ArgsKept(args, inputs) <==> ArgsKept(args[..n], inputs) && IsKept(args[n], inputs[n]);
    }
  }

  /** No argument is of a dynamic type. */
  predicate TypesAreStatic(args: seq<Arg>, inputs: seq<AbiType>) {
    forall i :: 0 <= i < |args| && i < |inputs| ==> !IsDynamicType(inputs[i])
  }

  lemma {:induction false} ArgsShape(args: seq<Arg>, inputs: seq<AbiType>, items: seq<Abi>, world: World)
    requires ArgsMean(args, inputs, items, world)
    ensures AllStatic(items) <==> TypesAreStatic(args, inputs)
    ensures (forall t :: t in inputs ==> IsInhabited(t)) ==> forall item :: item in items ==> Alone(item) != []
  {
    hide IsDynamic, IsDynamicType, Means, IsInhabited, Alone, Words, Encode, HasType;
    if args != [] {
      var n := |args| - 1;
      ArgsShape(args[..n], inputs, items[..n], world);
      MeansTyped(args[n], inputs[n], items[n], world);
      TypedShape(items[n], inputs[n]);
      AllStaticSnoc(items[..n], items[n]);
      assert items == items[..n] + [items[n]];
      assert TypesAreStatic(args, inputs) <==> TypesAreStatic(args[..n], inputs) && !IsDynamicType(inputs[n]);
      assert inputs[n] in inputs;
      if IsInhabited(inputs[n]) {
        InhabitedHasRoom(inputs[n]);
        AloneHasRoom(items[n], inputs[n]);
      }
    }
  }

  /**
   * Every struct that is flattened is an object with all its components named, and the types are
   * static, or there is a single argument, which then is not flattened.
   */
  ghost predicate IsMeant(args: seq<Arg>, inputs: seq<AbiType>) {
    && (forall i :: 0 <= i < |args| && i < |inputs| ==> NamedOnly(args[i], inputs[i]))
    && (TypesAreStatic(args, inputs) || (|args| == 1 && inputs != [] && !IsFlattened(args[0], inputs[0])))
  }

  lemma {:induction false} IsMeantIff(args: seq<Arg>, inputs: seq<AbiType>)
    requires |args| <= |inputs|
    ensures IsMeant(args, inputs) <==> ArgsKept(args, inputs) && (TypesAreStatic(args, inputs) || |args| == 1)
  {
    hide NamedOnly, IsDynamicType, IsFlattened;
  }

  /** Exactly when the bytes of the arguments are the encoding of what they mean. */
  lemma {:induction false} ArgsEncodedIff(args: seq<Arg>, inputs: seq<AbiType>, items: seq<Abi>, world: World)
    requires FlattenedArgs(args, inputs).Ok? && ArgsMean(args, inputs, items, world)
    ensures var laid, encoded := LaidArgs(args, inputs, world), Encode(Tuple(items));
            && (IsMeant(args, inputs) ==> laid == encoded)
            && ((forall t :: t in inputs ==> IsInhabited(t)) ==> (laid == encoded ==> IsMeant(args, inputs)))
  {
    hide FlattenedArgs, Means, LaidArgs, ArgsKept, IsInhabited, TypesAreStatic, AllStatic, Blocks, Alone, IsMeant, Encode;
    LaidArgsOrLess(args, inputs, items, world);
    ArgsShape(args, inputs, items, world);
    SameSize(items);
    SeparateIff(items);
    IsMeantIff(args, inputs);
  }

  /**
   * Compiling preserves meaning, and exactly when: a compiled step calls its target with its value and
   * with the selector followed by the ABI encoding of what the arguments given mean if and only if it
   * runs through and its arguments are laid out as meant. Arguments missing at the end go unnoticed.
   */
  lemma {:induction false} CompiledStepMeansCall(
      to: Arg, abi: seq<AbiFunction>, name: string, args: seq<Arg>, value: Option<Arg>, f: AbiFunction,
      items: seq<Abi>, world: World, beyond: seq<nat>)
    requires Compiled(to, abi, name, args, value).Ok? && IsFirstNamed(abi, name, f)
    requires ArgsMean(args, f.inputs, items, world)
    requires IsWord(to) && (value.Some? ==> IsWord(value.value))
    ensures var end := Execute(world, beyond, Compiled(to, abi, name, args, value).value);
            var meant := CallMeant(to, value, f.selector + Encode(Tuple(items)), world);
            && (StepHolds(to, value, args, f.inputs, world, beyond) && IsMeant(args, f.inputs) ==> end == Ok(meant))
            && ((forall t :: t in f.inputs ==> IsInhabited(t)) ==>
                  (end == Ok(meant) ==> StepHolds(to, value, args, f.inputs, world, beyond) && IsMeant(args, f.inputs)))
  {
    hide WordMeant, IsWord, FlattenedArgs, ArgsMean, WordParam, ValueParams, StepHolds, IsMeant, LaidArgs, Encode,
         Execute, IsInhabited, IsFirstNamed;
    FirstNamedIff(abi, name, f);
    CompiledStepRunsIff(to, abi, name, args, value, f, world, beyond);
    ArgsEncodedIff(args, f.inputs, items, world);
    SamePrefix(f.selector, LaidArgs(args, f.inputs, world), Encode(Tuple(items)));
  }

  lemma SamePrefix(prefix: Bytes, a: Bytes, b: Bytes)
    ensures prefix + a == prefix + b <==> a == b
  {
    assert (prefix + a)[|prefix|..] == a && (prefix + b)[|prefix|..] == b;
  }

  // ----- Calls that are not the ones meant -----

  /** A step whose arguments are laid out otherwise than meant runs through with the wrong call data. */
  lemma {:induction false} WrongCall(
      to: nat, f: AbiFunction, args: seq<Arg>, items: seq<Abi>, world: World, beyond: seq<nat>)
    requires Fits(to, 20) && Fits(to, 32)
    requires FlattenedArgs(args, f.inputs).Ok? && ArgsMean(args, f.inputs, items, world)
    requires ArgsHold(args, f.inputs, world, beyond) && !IsMeant(args, f.inputs)
    requires forall t :: t in f.inputs ==> IsInhabited(t)
    ensures var step := Compiled(Literal(to), [f], f.name, args, None);
            && step.Ok? && Execute(world, beyond, step.value).Ok?
            && Execute(world, beyond, step.value).value.calldata != f.selector + Encode(Tuple(items))
  {
    hide Fits, Encode, LaidArgs, Execute, FlattenedArgs, ArgsMean, ArgsHold, IsMeant, IsInhabited;
    LiteralTarget(to);
    CompiledStepRunsIff(Literal(to), [f], f.name, args, None, f, world, beyond);
    ArgsEncodedIff(args, f.inputs, items, world);
    SamePrefix(f.selector, LaidArgs(args, f.inputs, world), Encode(Tuple(items)));
  }

  lemma LiteralTarget(to: nat)
    ensures WordParam(Literal(to), TARGET).Ok?
  {
  }

  /** Two arguments, a word and bytes: their offsets count from the wrong place. */
  lemma {:induction false} WordAndBytesFail(to: nat, n: nat, data: Bytes, name: string, selector: Bytes, beyond: seq<nat>)
    requires Fits(to, 20) && Fits(to, 32)
    ensures var f := AbiFunction(name, [Scalar, DynamicData], selector);
            var step := Compiled(Literal(to), [f], name, [Literal(n), Data(data)], None);
            && step.Ok? && Execute(NO_WORLD, beyond, step.value).Ok?
            && Execute(NO_WORLD, beyond, step.value).value.calldata != selector + Encode(Tuple([Word(n), Blob(data)]))
  {
    hide Fits, Encode, Execute, FlattenedArgs;
    var f := AbiFunction(name, [Scalar, DynamicData], selector);
    var args, items := [Literal(n), Data(data)], [Word(n), Blob(data)];
    assert StandsFor(args[0], Scalar, items[0]) && StandsFor(args[1], DynamicData, items[1]);
    FlattenedArgsIff(args, f.inputs);
    assert IsDynamicType(f.inputs[1]);
    WrongCall(to, f, args, items, NO_WORLD, beyond);
  }

  /** A single struct with bytes in it, given as an object: the struct's own offset is missing. */
  lemma {:induction false} StructOfBytesFails(to: nat, data: Bytes, name: string, selector: Bytes, beyond: seq<nat>)
    requires Fits(to, 20) && Fits(to, 32)
    ensures var f := AbiFunction(name, [Struct([Component("b", DynamicData)])], selector);
            var step := Compiled(Literal(to), [f], name, [Object(map["b" := Data(data)])], None);
            && step.Ok? && Execute(NO_WORLD, beyond, step.value).Ok?
            && Execute(NO_WORLD, beyond, step.value).value.calldata != selector + Encode(Tuple([Tuple([Blob(data)])]))
  {
    hide Fits, Encode, Execute, FlattenedArgs, IsMeant, IsAccepted, Means, ArgHolds, IsInhabited;
    var t, value := Struct([Component("b", DynamicData)]), Object(map["b" := Data(data)]);
    var f := AbiFunction(name, [t], selector);
    StructOfBytes(t, value, data, beyond);
    FlattenedArgsIff([value], [t]);
    DynamicStructIsNotMeant(value, t);
    WrongCall(to, f, [value], [Tuple([Blob(data)])], NO_WORLD, beyond);
  }

  lemma DynamicStructIsNotMeant(value: Arg, t: AbiType)
    requires IsDynamicType(t) && IsFlattened(value, t)
    ensures !IsMeant([value], [t])
  {
    hide NamedOnly, IsDynamicType, IsFlattened;
    assert [t][0] == t && [value][0] == value;
  }

  lemma {:induction false} StructOfBytes(t: AbiType, value: Arg, data: Bytes, beyond: seq<nat>)
    requires t == Struct([Component("b", DynamicData)]) && value == Object(map["b" := Data(data)])
    ensures IsAccepted(value, t) && Means(value, t, Tuple([Blob(data)]), NO_WORLD) && ArgHolds(value, t, NO_WORLD, beyond)
    ensures IsDynamicType(t) && IsFlattened(value, t) && IsInhabited(t)
  {
    assert t.components[0] in t.components;
    assert StandsFor(Data(data), DynamicData, Blob(data));
    assert Entry(value, 0, "b") == Data(data);
    assert Means(Data(data), DynamicData, Blob(data), NO_WORLD);
  }

  // ----- The shape of a step -----

  ghost predicate OnlyCallData(params: seq<InputParam>) {
    forall p :: p in params ==> p.paramType.CALL_DATA?
  }

  lemma {:induction false} FlattenedIsCallData(value: Arg, t: AbiType)
    requires Flattened(value, t).Ok?
    ensures OnlyCallData(Flattened(value, t).value)
    decreases t, 0, 0
  {
    if IsFlattened(value, t) {
      FlattenedFieldsAreCallData(t.components, value);
    }
  }

  lemma {:induction false} FlattenedFieldsAreCallData(components: seq<Component>, value: Arg)
    requires FlattenedFields(components, value).Ok?
    ensures OnlyCallData(FlattenedFields(components, value).value)
    decreases components, 1, |components|
  {
    if components != [] {
      var last := components[|components| - 1];
      FlattenedFieldsAreCallData(components[..|components| - 1], value);
      if last.name != "" {
        FlattenedIsCallData(Lookup(value, last.name), last.abiType);
      }
    }
  }

  lemma {:induction false} FlattenedArgsAreCallData(args: seq<Arg>, inputs: seq<AbiType>)
    requires FlattenedArgs(args, inputs).Ok?
    ensures OnlyCallData(FlattenedArgs(args, inputs).value)
  {
    if args != [] {
      var n := |args| - 1;
      FlattenedArgsAreCallData(args[..n], inputs);
      FlattenedIsCallData(args[n], inputs[n]);
    }
  }

  /** A step has its target first, its value second if it has one, and call data after that. */
  lemma {:induction false} StepShape(to: Arg, abi: seq<AbiFunction>, name: string, args: seq<Arg>, value: Option<Arg>, i: nat)
    requires Compiled(to, abi, name, args, value).Ok?
    requires i < |Compiled(to, abi, name, args, value).value.inputParams|
    ensures Compiled(to, abi, name, args, value).value.inputParams[i].paramType ==
            if i == 0 then TARGET else if i == 1 && value.Some? then VALUE else CALL_DATA
  {
    hide FlattenedArgs;
    var params := FlattenedArgs(args, FirstNamed(abi, name).value.inputs).value;
    FlattenedArgsAreCallData(args, FirstNamed(abi, name).value.inputs);
    var header := 1 + |ValueParams(value).value|;
    assert i >= header ==> Compiled(to, abi, name, args, value).value.inputParams[i] == params[i - header];
    assert i >= header ==> params[i - header] in params;
  }

  // ----- Incomplete call data -----

  /** Run-time values have the size of the type they are given for. */
  predicate FetchesFit(value: Arg, t: AbiType, world: World)
    decreases t
  {
    if value.Runtime? then
      var bytes := Fetch(world, value.param.kind, value.param.fetcherData);
      bytes.Some? ==> |bytes.value| == Size(t)
    else
      IsFlattened(value, t) ==> forall c :: c in t.components ==> FetchesFit(Lookup(value, c.name), c.abiType, world)
  }

  /** An argument of a static type yields its type's size, unless an unnamed component is passed over. */
  lemma {:induction false} LaidLength(value: Arg, t: AbiType, world: World, beyond: seq<nat>)
    requires IsInhabited(t) && !IsDynamicType(t) && FetchesFit(value, t, world)
    requires Flattened(value, t).Ok? && ArgHolds(value, t, world, beyond)
    ensures |Laid(value, t, world)| <= Size(t)
    ensures |Laid(value, t, world)| == Size(t) <==> NamedOnly(value, t)
    decreases t, 0, 0
  {
    if IsFlattened(value, t) {
      assert forall c :: c in t.components ==> !IsDynamicType(c.abiType);
      if value.Items? {
        ArrayFieldsAreUnnamed(t.components, value, world);
      } else {
        LaidFieldsLength(t.components, value, world, beyond);
      }
    } else {
      SingleLength(value, t, world, beyond);
    }
  }

  lemma {:induction false} SingleLength(value: Arg, t: AbiType, world: World, beyond: seq<nat>)
    requires !IsFlattened(value, t) && !IsDynamicType(t) && FetchesFit(value, t, world)
    requires Flattened(value, t).Ok? && ArgHolds(value, t, world, beyond)
    ensures |Laid(value, t, world)| == Size(t)
  {
    hide Encode, Alone, Plain, IsDynamic;
    if !value.Runtime? {
      PlainStandsFor(value, t);
      StandsForTyped(value, t, Plain(value, t).value);
      TypedShape(Plain(value, t).value, t);
      StaticAlone(Plain(value, t).value);
    }
  }

  lemma {:induction false} LaidFieldsLength(components: seq<Component>, value: Arg, world: World, beyond: seq<nat>)
    requires value.Object? && FlattenedFields(components, value).Ok? && FieldsHold(components, value, world, beyond)
    requires forall c :: c in components ==>
               IsInhabited(c.abiType) && !IsDynamicType(c.abiType) && FetchesFit(Lookup(value, c.name), c.abiType, world)
    ensures |LaidFields(components, value, world)| <= 32 * WordsOfAll(components)
    ensures |LaidFields(components, value, world)| == 32 * WordsOfAll(components) <==>
            forall c :: c in components ==> c.name != "" && NamedOnly(Lookup(value, c.name), c.abiType)
    decreases components, 1, |components|
  {
    hide Flattened, Laid, NamedOnly, FetchesFit, ArgHolds, IsInhabited, IsDynamicType, Words, Lookup;
    if components != [] {
      var n := |components| - 1;
      var front, c := components[..n], components[n];
      assert components == front + [c];
      assert c in components;
      InhabitedHasRoom(c.abiType);
      LaidFieldsLength(front, value, world, beyond);
      if c.name != "" {
        LaidLength(Lookup(value, c.name), c.abiType, world, beyond);
      }
    }
  }

  function WordsOfTypes(inputs: seq<AbiType>): nat {
    if inputs == [] then 0 else WordsOfTypes(inputs[..|inputs| - 1]) + Words(inputs[|inputs| - 1])
  }

  lemma {:induction false} FewerTypesFewerWords(inputs: seq<AbiType>, k: nat)
    requires k <= |inputs| && forall t :: t in inputs ==> IsInhabited(t) && !IsDynamicType(t)
    ensures WordsOfTypes(inputs[..k]) <= WordsOfTypes(inputs)
    ensures WordsOfTypes(inputs[..k]) == WordsOfTypes(inputs) <==> k == |inputs|
  {
    if k < |inputs| {
      hide IsInhabited, IsDynamicType, Words;
      var n := |inputs| - 1;
      assert inputs[..n][..k] == inputs[..k];
      assert inputs[n] in inputs;
      InhabitedHasRoom(inputs[n]);
      FewerTypesFewerWords(inputs[..n], k);
    } else {
      assert inputs[..k] == inputs;
    }
  }

  ghost predicate AllNamed(args: seq<Arg>, inputs: seq<AbiType>) {
    forall i :: 0 <= i < |args| && i < |inputs| ==> NamedOnly(args[i], inputs[i])
  }

  lemma {:induction false} ArgsLength(args: seq<Arg>, inputs: seq<AbiType>, world: World, beyond: seq<nat>)
    requires |args| <= |inputs| && FlattenedArgs(args, inputs).Ok? && ArgsHold(args, inputs, world, beyond)
    requires forall t :: t in inputs ==> IsInhabited(t) && !IsDynamicType(t)
    requires forall i :: 0 <= i < |args| && i < |inputs| ==> FetchesFit(args[i], inputs[i], world)
    ensures var size := 32 * WordsOfTypes(inputs[..|args|]);
            && |LaidArgs(args, inputs, world)| <= size
            && (|LaidArgs(args, inputs, world)| == size <==> AllNamed(args, inputs))
  {
    hide Flattened, Laid, NamedOnly, FetchesFit, ArgHolds, IsInhabited, IsDynamicType, Words;
    if args != [] {
      var n := |args| - 1;
      ArgsLength(args[..n], inputs, world, beyond);
      LaidLength(args[n], inputs[n], world, beyond);
      assert inputs[..|args|][..n] == inputs[..n];
      assert AllNamed(args, inputs) <==> AllNamed(args[..n], inputs) && NamedOnly(args[n], inputs[n]);
    }
  }

  /**
   * Exactly when the call data of a function with static types is complete: it has the size of the
   * function's parameters if and only if every parameter has an argument and no unnamed component
   * was passed over.
   */
  lemma {:induction false} CallDataIsCompleteIff(
      args: seq<Arg>, inputs: seq<AbiType>, world: World, beyond: seq<nat>, start: Call)
    requires FlattenedArgs(args, inputs).Ok? && ArgsHold(args, inputs, world, beyond)
    requires forall t :: t in inputs ==> IsInhabited(t) && !IsDynamicType(t)
    requires forall i :: 0 <= i < |args| && i < |inputs| ==> FetchesFit(args[i], inputs[i], world)
    ensures var end := Run(world, beyond, start, FlattenedArgs(args, inputs).value);
            && end.Ok?
            && (|end.value.calldata| == |start.calldata| + 32 * WordsOfTypes(inputs) <==>
                  |args| == |inputs| && AllNamed(args, inputs))
  {
    hide Run, FlattenedArgs, ArgsHold, LaidArgs, FetchesFit, IsInhabited, IsDynamicType, AllNamed, Words, WordsOfTypes;
    FlattenedArgsRun(args, inputs, world, beyond, start);
    ArgsLength(args, inputs, world, beyond);
    FewerTypesFewerWords(inputs, |args|);
    assert inputs[..|inputs|] == inputs;
  }
}
