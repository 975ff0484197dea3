/** What an argument stands for as a value of its type, told without the compiler, and which arguments stand for nothing. */
module ArgMeaning {
  import opened Abi
  import opened UserOps
  import opened Wrappers
  import opened SeparateEncoding
  import opened StepCompiler

  // ----- Values of a type -----

  /** The value is one of the type. */
  ghost predicate HasType(v: Abi, t: AbiType)
    decreases t
  {
    match t
    case Scalar => v.Word?
    case DynamicData => v.Blob?
    case Struct(components) =>
      && v.Tuple? && |v.items| == |components|
      && forall i :: 0 <= i < |components| ==> HasType(v.items[i], components[i].abiType)
    case FixedArray(element, length) =>
      v.Tuple? && |v.items| == length && forall i :: 0 <= i < length ==> HasType(v.items[i], element)
    case DynamicArray(element) =>
      v.List? && forall i :: 0 <= i < |v.items| ==> HasType(v.items[i], element)
  }

  lemma {:induction false} TupleShape(items: seq<Abi>)
    ensures IsDynamic(Tuple(items)) <==> !AllStatic(items)
    ensures AllStatic(items) ==> Encode(Tuple(items)) == EncodeAll(items)
  {
    if AllStatic(items) {
      StaticTuple(items);
    }
  }

  predicate AnyDynamic(components: seq<Component>) {
    exists c :: c in components && IsDynamicType(c.abiType)
  }

  lemma {:induction false} AnyDynamicSnoc(front: seq<Component>, last: Component)
    ensures AnyDynamic(front + [last]) <==> AnyDynamic(front) || IsDynamicType(last.abiType)
  {
    hide IsDynamicType;
    assert last in front + [last];
  }

  lemma {:induction false} AllStaticSnoc(items: seq<Abi>, last: Abi)
    ensures AllStatic(items + [last]) <==> AllStatic(items) && !IsDynamic(last)
    ensures |EncodeAll(items + [last])| == |EncodeAll(items)| + |Encode(last)|
  {
    hide Encode, IsDynamic;
    assert (items + [last])[..|items|] == items;
    assert last in items + [last];
    assert forall item :: item in items ==> item in items + [last];
  }

  /** The value is dynamic exactly if the type is, and otherwise has the type's size. */
  ghost predicate HasShape(v: Abi, t: AbiType) {
    && (IsDynamic(v) <==> IsDynamicType(t))
    && (!IsDynamic(v) ==> |Encode(v)| == Size(t))
  }

  ghost predicate FieldsShaped(items: seq<Abi>, components: seq<Component>) {
    && (AllStatic(items) <==> !AnyDynamic(components))
    && (AllStatic(items) ==> |EncodeAll(items)| == 32 * WordsOfAll(components))
  }

  lemma NoneDynamic()
    ensures !AnyDynamic([])
  {
  }

  lemma NoFieldsShaped()
    ensures FieldsShaped([], [])
  {
    StaticNothing();
    NoneDynamic();
  }

  lemma {:induction false} FieldsShapedSnoc(items: seq<Abi>, front: seq<Component>, v: Abi, last: Component)
    requires FieldsShaped(items, front) && HasShape(v, last.abiType)
    ensures FieldsShaped(items + [v], front + [last])
  {
    hide Encode, EncodeAll, AllStatic, IsDynamic, IsDynamicType, AnyDynamic, Words;
    AllStaticSnoc(items, v);
    AnyDynamicSnoc(front, last);
    assert (front + [last])[..|front|] == front;
  }

  lemma {:induction false} StructShaped(items: seq<Abi>, components: seq<Component>)
    requires FieldsShaped(items, components)
    ensures HasShape(Tuple(items), Struct(components))
  {
    TupleShape(items);
  }

  lemma {:induction false} TypedFieldsShaped(items: seq<Abi>, components: seq<Component>)
    requires |items| == |components|
    requires forall i :: 0 <= i < |components| ==> HasType(items[i], components[i].abiType)
    ensures FieldsShaped(items, components)
    decreases components, 1, |components|
  {
    hide FieldsShaped, HasShape, HasType;
    if components == [] {
      NoFieldsShaped();
    } else {
      var n := |components| - 1;
      TypedFieldsShaped(items[..n], components[..n]);
      TypedShape(items[n], components[n].abiType);
      FieldsShapedSnoc(items[..n], components[..n], items[n], components[n]);
      assert components == components[..n] + [components[n]] && items == items[..n] + [items[n]];
    }
  }

  lemma {:induction false} TypedItemsShaped(items: seq<Abi>, element: AbiType)
    requires forall i :: 0 <= i < |items| ==> HasType(items[i], element)
    ensures AllStatic(items) <==> items == [] || !IsDynamicType(element)
    ensures AllStatic(items) ==> |EncodeAll(items)| == 32 * Times(|items|, Words(element))
    decreases element, 1, |items|
  {
    hide Encode, EncodeAll, AllStatic, IsDynamic, IsDynamicType, HasType, Words;
    if items == [] {
      StaticNothing();
    } else {
      var n := |items| - 1;
      TypedItemsShaped(items[..n], element);
      TypedShape(items[n], element);
      AllStaticSnoc(items[..n], items[n]);
      assert items == items[..n] + [items[n]];
    }
  }

  lemma {:induction false} TypedShape(v: Abi, t: AbiType)
    requires HasType(v, t)
    ensures HasShape(v, t)
    decreases t, 0, 0
  {
    match t
    case Scalar =>
    case DynamicData =>
    case Struct(components) =>
      TypedFieldsShaped(v.items, components);
      StructShaped(v.items, components);
    case FixedArray(element, length) =>
      TypedItemsShaped(v.items, element);
      TupleShape(v.items);
    case DynamicArray(element) =>
  }

  // ----- Bytes of a static type's size -----

  /** Any bytes of the size of a static type are the encoding of a value of it. */
  lemma {:induction false} StaticAnswer(bytes: Bytes, t: AbiType) returns (v: Abi)
    requires !IsDynamicType(t) && |bytes| == Size(t)
    ensures HasType(v, t) && Encode(v) == bytes
    decreases t, 0, 0
  {
    hide Digits;
    match t
    case Scalar =>
      v := Word(Value(bytes));
      BigEndianOfValue(bytes);
    case Struct(components) =>
      assert forall c :: c in components ==> !IsDynamicType(c.abiType);
      var items := StaticFields(bytes, components);
      v := Tuple(items);
      TypedFieldsShaped(items, components);
      StaticStruct(items, components);
    case FixedArray(element, length) =>
      var items := StaticItems(bytes, element, length);
      v := Tuple(items);
      TypedItemsShaped(items, element);
      TupleShape(items);
  }

  lemma {:induction false} StaticStruct(items: seq<Abi>, components: seq<Component>)
    requires FieldsShaped(items, components) && forall c :: c in components ==> !IsDynamicType(c.abiType)
    ensures Encode(Tuple(items)) == EncodeAll(items)
  {
    TupleShape(items);
  }

  lemma {:induction false} StaticFields(bytes: Bytes, components: seq<Component>) returns (items: seq<Abi>)
    requires forall c :: c in components ==> !IsDynamicType(c.abiType)
    requires |bytes| == 32 * WordsOfAll(components)
    ensures |items| == |components| && EncodeAll(items) == bytes
    ensures forall i :: 0 <= i < |components| ==> HasType(items[i], components[i].abiType)
    decreases components, 1, |components|
  {
    hide Encode, IsDynamicType, HasType, Words;
    if components == [] {
      items := [];
    } else {
      var n := |components| - 1;
      var size := 32 * WordsOfAll(components[..n]);
      assert components[n] in components;
      var front := StaticFields(bytes[..size], components[..n]);
      var last := StaticAnswer(bytes[size..], components[n].abiType);
      items := front + [last];
      assert items[..n] == front && bytes == bytes[..size] + bytes[size..];
    }
  }

  lemma {:induction false} StaticItems(bytes: Bytes, element: AbiType, count: nat) returns (items: seq<Abi>)
    requires count > 0 ==> !IsDynamicType(element)
    requires |bytes| == 32 * Times(count, Words(element))
    ensures |items| == count && EncodeAll(items) == bytes
    ensures forall i :: 0 <= i < count ==> HasType(items[i], element)
    decreases element, 1, count
  {
    hide Encode, IsDynamicType, HasType, Words;
    if count == 0 {
      items := [];
    } else {
      var size := 32 * Times(count - 1, Words(element));
      var front := StaticItems(bytes[..size], element, count - 1);
      var last := StaticAnswer(bytes[size..], element);
      items := front + [last];
      assert items[..count - 1] == front && bytes == bytes[..size] + bytes[size..];
    }
  }

  // ----- Arguments without run-time values -----

  /** The entry of a struct's value: by position in an array, by name in an object, and nothing otherwise. */
  function Entry(value: Arg, i: nat, name: string): Arg {
    if value.Items? && i < |value.items| then value.items[i]
    else if value.Object? && name in value.fields then value.fields[name]
    else Undefined
  }

  /**
   * The argument stands for the value: a literal for its word, bytes for themselves, an array of
   * either kind for as many values in the same order, and a struct for its entries' values.
   */
  predicate StandsFor(value: Arg, t: AbiType, v: Abi)
    decreases t
  {
    match t
    case Scalar => value.Literal? && v == Word(value.word)
    case DynamicData => value.Data? && v == Blob(value.bytes)
    case Struct(components) =>
      && !value.Runtime? && v.Tuple? && |v.items| == |components|
      && forall i :: 0 <= i < |components| ==>
           StandsFor(Entry(value, i, components[i].name), components[i].abiType, v.items[i])
    case FixedArray(element, length) =>
      && value.Items? && v.Tuple? && |value.items| == length && |v.items| == length
      && forall i :: 0 <= i < length ==> StandsFor(value.items[i], element, v.items[i])
    case DynamicArray(element) =>
      && value.Items? && v.List? && |v.items| == |value.items|
      && forall i :: 0 <= i < |value.items| ==> StandsFor(value.items[i], element, v.items[i])
  }

  lemma {:induction false} StandsForTyped(value: Arg, t: AbiType, v: Abi)
    requires StandsFor(value, t, v)
    ensures HasType(v, t)
    decreases t
  {
    match t
    case Struct(components) =>
      forall i | 0 <= i < |components| ensures HasType(v.items[i], components[i].abiType) {
        StandsForTyped(Entry(value, i, components[i].name), components[i].abiType, v.items[i]);
      }
    case FixedArray(element, length) =>
      forall i | 0 <= i < length ensures HasType(v.items[i], element) {
        StandsForTyped(value.items[i], element, v.items[i]);
      }
    case DynamicArray(element) =>
      forall i | 0 <= i < |v.items| ensures HasType(v.items[i], element) {
        StandsForTyped(value.items[i], element, v.items[i]);
      }
    case _ =>
  }

  lemma {:induction false} PlainStandsFor(value: Arg, t: AbiType)
    requires Plain(value, t).Ok?
    ensures StandsFor(value, t, Plain(value, t).value)
    decreases t, 0, 0
  {
    match t
    case Struct(components) => PlainFieldsStandFor(components, value);
    case FixedArray(element, length) => PlainItemsStandFor(value.items, element);
    case DynamicArray(element) => PlainItemsStandFor(value.items, element);
    case _ =>
  }

  lemma {:induction false} PlainFieldsStandFor(components: seq<Component>, value: Arg)
    requires PlainFields(components, value).Ok?
    ensures var items := PlainFields(components, value).value;
            && |items| == |components|
            && forall i :: 0 <= i < |components| ==>
                 StandsFor(Entry(value, i, components[i].name), components[i].abiType, items[i])
    decreases components, 1, |components|
  {
    hide Plain, StandsFor;
    if components != [] {
      var n := |components| - 1;
      PlainFieldsStandFor(components[..n], value);
      PlainStandsFor(Entry(value, n, components[n].name), components[n].abiType);
    }
  }

  lemma {:induction false} PlainItemsStandFor(items: seq<Arg>, element: AbiType)
    requires PlainItems(items, element).Ok?
    ensures var values := PlainItems(items, element).value;
            |values| == |items| && forall i :: 0 <= i < |items| ==> StandsFor(items[i], element, values[i])
    decreases element, 1, |items|
  {
    hide Plain, StandsFor;
    if items != [] {
      var n := |items| - 1;
      PlainItemsStandFor(items[..n], element);
      PlainStandsFor(items[n], element);
    }
  }

  lemma {:induction false} StandsForPlain(value: Arg, t: AbiType, v: Abi)
    requires StandsFor(value, t, v)
    ensures Plain(value, t) == Ok(v)
    decreases t, 0, 0
  {
    match t
    case Struct(components) => FieldsArePlain(components, value, v.items);
    case FixedArray(element, length) => ItemsArePlain(value.items, element, v.items);
    case DynamicArray(element) => ItemsArePlain(value.items, element, v.items);
    case _ =>
  }

  lemma {:induction false} FieldsArePlain(components: seq<Component>, value: Arg, items: seq<Abi>)
    requires |items| == |components|
    requires forall i :: 0 <= i < |components| ==>
               StandsFor(Entry(value, i, components[i].name), components[i].abiType, items[i])
    ensures PlainFields(components, value) == Ok(items)
    decreases components, 1, |components|
  {
    hide Plain, StandsFor;
    if components != [] {
      var n := |components| - 1;
      FieldsArePlain(components[..n], value, items[..n]);
      StandsForPlain(Entry(value, n, components[n].name), components[n].abiType, items[n]);
      assert items[..n] + [items[n]] == items;
    }
  }

  lemma {:induction false} ItemsArePlain(items: seq<Arg>, element: AbiType, values: seq<Abi>)
    requires |values| == |items| && forall i :: 0 <= i < |items| ==> StandsFor(items[i], element, values[i])
    ensures PlainItems(items, element) == Ok(values)
    decreases element, 1, |items|
  {
    hide Plain, StandsFor;
    if items != [] {
      var n := |items| - 1;
      ItemsArePlain(items[..n], element, values[..n]);
      StandsForPlain(items[n], element, values[n]);
      assert values[..n] + [values[n]] == values;
    }
  }

  ghost predicate StandsForSome(value: Arg, t: AbiType) {
    exists v :: StandsFor(value, t, v)
  }

  /** The compiler encodes an argument without run-time values as what it stands for, and refuses it if that is nothing. */
  lemma {:induction false} PlainIff(value: Arg, t: AbiType, v: Abi)
    ensures Plain(value, t) == Ok(v) <==> StandsFor(value, t, v)
    ensures Plain(value, t).Ok? <==> StandsForSome(value, t)
  {
    hide Plain;
    if Plain(value, t).Ok? {
      PlainStandsFor(value, t);
      assert StandsFor(value, t, Plain(value, t).value);
    }
    if StandsFor(value, t, v) {
      StandsForPlain(value, t, v);
    }
    if StandsForSome(value, t) {
      var w :| StandsFor(value, t, w);
      StandsForPlain(value, t, w);
    }
  }

  // ----- Which steps are compiled -----

  /** Fields with a name are accepted one by one; any other argument is a run-time value or stands for something. */
  ghost predicate IsAccepted(value: Arg, t: AbiType)
    decreases t
  {
    if t.Struct? && (value.Object? || value.Items?) then
      forall c :: c in t.components && c.name != "" ==>
        IsAccepted(if value.Object? && c.name in value.fields then value.fields[c.name] else Undefined, c.abiType)
    else value.Runtime? || StandsForSome(value, t)
  }

  ghost predicate FieldsAccepted(components: seq<Component>, value: Arg) {
    forall c :: c in components && c.name != "" ==> IsAccepted(Lookup(value, c.name), c.abiType)
  }

  lemma {:induction false} FlattenedIff(value: Arg, t: AbiType)
    ensures Flattened(value, t).Ok? <==> IsAccepted(value, t)
    decreases t, 0, 0
  {
    hide Plain, StandsForSome;
    if IsFlattened(value, t) {
      FlattenedFieldsIff(t.components, value);
    } else if !value.Runtime? {
      PlainIff(value, t, Word(0));
    }
  }

  lemma {:induction false} FieldsAcceptedSnoc(front: seq<Component>, last: Component, value: Arg)
    ensures FieldsAccepted(front + [last], value) <==>
            FieldsAccepted(front, value) && (last.name != "" ==> IsAccepted(Lookup(value, last.name), last.abiType))
  {
    hide IsAccepted, Lookup;
    assert last in front + [last];
  }

  lemma {:induction false} FlattenedFieldsIff(components: seq<Component>, value: Arg)
    ensures FlattenedFields(components, value).Ok? <==> FieldsAccepted(components, value)
    decreases components, 1, |components|
  {
    hide Flattened, IsAccepted, FieldsAccepted, Lookup;
    if components == [] {
      NoFieldRefused(value);
    } else {
      var n := |components| - 1;
      var last := components[n];
      assert components == components[..n] + [last];
      FieldsAcceptedSnoc(components[..n], last, value);
      FlattenedFieldsIff(components[..n], value);
      FlattenedIff(Lookup(value, last.name), last.abiType);
    }
  }

  lemma NoFieldRefused(value: Arg)
    ensures FieldsAccepted([], value)
  {
  }

  ghost predicate ArgsAccepted(args: seq<Arg>, inputs: seq<AbiType>) {
    |args| <= |inputs| && forall i :: 0 <= i < |args| ==> IsAccepted(args[i], inputs[i])
  }

  lemma {:induction false} FlattenedArgsIff(args: seq<Arg>, inputs: seq<AbiType>)
    ensures FlattenedArgs(args, inputs).Ok? <==> ArgsAccepted(args, inputs)
  {
    hide Flattened, IsAccepted;
    if args != [] {
      var n := |args| - 1;
      FlattenedArgsIff(args[..n], inputs);
      if n < |inputs| {
        FlattenedIff(args[n], inputs[n]);
        assert ArgsAccepted(args, inputs) <==> ArgsAccepted(args[..n], inputs) && IsAccepted(args[n], inputs[n]);
      }
    }
  }

  predicate IsWordArg(value: Arg) {
    value.Literal? || value.Runtime?
  }

  /** The first function of that name is f. */
  ghost predicate IsFirstNamed(abi: seq<AbiFunction>, name: string, f: AbiFunction) {
    exists i :: 0 <= i < |abi| && abi[i] == f && f.name == name && forall j :: 0 <= j < i ==> abi[j].name != name
  }

  lemma {:induction false} FirstNamedIff(abi: seq<AbiFunction>, name: string, f: AbiFunction)
    ensures FirstNamed(abi, name) == Some(f) <==> IsFirstNamed(abi, name, f)
  {
    if abi != [] {
      FirstNamedIff(abi[1..], name, f);
      if IsFirstNamed(abi[1..], name, f) && abi[0].name != name {
        var i :| 0 <= i < |abi| - 1 && abi[1..][i] == f && forall j :: 0 <= j < i ==> abi[1..][j].name != name;
        assert abi[i + 1] == f;
        forall j | 0 <= j < i + 1 ensures abi[j].name != name {
          assert j > 0 ==> abi[j] == abi[1..][j - 1];
        }
      }
      if IsFirstNamed(abi, name, f) && abi[0].name != name {
        var i :| 0 <= i < |abi| && abi[i] == f && forall j :: 0 <= j < i ==> abi[j].name != name;
        assert abi[1..][i - 1] == f;
        assert forall j :: 0 <= j < i - 1 ==> abi[1..][j] == abi[j + 1];
      }
    }
  }

  /** Exactly when a step is compiled: target, value and arguments are accepted, and the function is found. */
  lemma {:induction false} CompiledIff(to: Arg, abi: seq<AbiFunction>, name: string, args: seq<Arg>, value: Option<Arg>)
    ensures Compiled(to, abi, name, args, value).Ok? <==>
            && IsWordArg(to) && (value.Some? ==> IsWordArg(value.value))
            && exists f :: IsFirstNamed(abi, name, f) && ArgsAccepted(args, f.inputs)
  {
    hide FlattenedArgs, ArgsAccepted, IsFirstNamed;
    forall f ensures FirstNamed(abi, name) == Some(f) <==> IsFirstNamed(abi, name, f) {
      FirstNamedIff(abi, name, f);
    }
    if FirstNamed(abi, name).Some? {
      FlattenedArgsIff(args, FirstNamed(abi, name).value.inputs);
      assert IsFirstNamed(abi, name, FirstNamed(abi, name).value);
    }
  }
}
