/** What the constraints on run-time values, and steps that only check such values, amount to. */
module StepChecks {
  import opened Abi
  import opened UserOps
  import opened Wrappers
  import opened StepCompiler
  import opened ComposableExecution

  // ----- Constraints -----

  /** What a chain of constraints says of a single word. */
  predicate SatisfiesAll(constraints: seq<Constraint>, word: nat) {
    forall c :: c in constraints ==> Satisfies(c, word)
  }

  ghost predicate HoldsOfAllWords(c: Constraint) {
    forall word :: Fits(word, 32) ==> Satisfies(c, word)
  }

  ghost predicate HoldsOfNoWord(c: Constraint) {
    forall word :: Fits(word, 32) ==> !Satisfies(c, word)
  }

  /** The largest word. */
  function MaxWord(): nat {
    PowerIsPositive(32);
    Pow256(32) - 1
  }

  /** By its bounds, the constraint holds of every word. */
  predicate IsTrivial(c: Constraint) {
    match c
    case EQ(_) => false
    case GTE(reference) => reference == 0
    case LTE(reference) => MaxWord() <= reference
    case IN(lower, upper) => lower == 0 && MaxWord() <= upper
  }

  /** By its bounds, the constraint holds of no word. */
  predicate IsEmpty(c: Constraint) {
    match c
    case EQ(reference) => MaxWord() < reference
    case GTE(reference) => MaxWord() < reference
    case LTE(_) => false
    case IN(lower, upper) => upper < lower || MaxWord() < lower
  }

  lemma {:induction false} PowerIsPositive(width: nat)
    ensures Pow256(width) >= 1
    ensures width > 0 ==> Pow256(width) >= 256
  {
    if width > 0 {
      PowerIsPositive(width - 1);
    }
  }

  lemma {:induction false} WordsUpToMax(word: nat)
    ensures Fits(word, 32) <==> word <= MaxWord()
    ensures MaxWord() >= 255
  {
    hide Pow256, Fits;
    PowerIsPositive(32);
    FitsIffBelow(word, 32);
  }

  lemma {:induction false} TrivialByBounds(c: Constraint)
    ensures HoldsOfAllWords(c) <==> IsTrivial(c)
  {
    hide MaxWord, Fits;
    forall word: nat ensures Fits(word, 32) <==> word <= MaxWord() {
      WordsUpToMax(word);
    }
    WordsUpToMax(0);
    assert Fits(0, 32) && Fits(1, 32) && Fits(MaxWord(), 32);
  }

  lemma {:induction false} EmptyByBounds(c: Constraint)
    ensures HoldsOfNoWord(c) <==> IsEmpty(c)
  {
    hide MaxWord, Fits;
    forall word: nat ensures Fits(word, 32) <==> word <= MaxWord() {
      WordsUpToMax(word);
    }
    assert Fits(0, 32);
    match c
    case EQ(reference) => assert Satisfies(c, reference);
    case GTE(reference) => assert Satisfies(c, reference);
    case LTE(_) => assert Satisfies(c, 0);
    case IN(lower, upper) => assert lower <= upper ==> Satisfies(c, lower);
  }

  ghost predicate IsMemory(beyond: seq<nat>) {
    forall word :: word in beyond ==> Fits(word, 32)
  }

  /** The contract's check of a one-word value agrees with the constraints on it, whatever stands behind it in memory. */
  ghost predicate CheckIsFaithful(constraints: seq<Constraint>) {
    forall bytes: Bytes, beyond :: |bytes| == 32 && IsMemory(beyond) ==>
      (ConstraintsPass(bytes, constraints, beyond) <==> SatisfiesAll(constraints, Value(bytes)))
  }

  lemma {:induction false} Witnesses(constraints: seq<Constraint>) returns (words: seq<nat>)
    requires forall c :: c in constraints ==> !HoldsOfNoWord(c)
    ensures |words| == |constraints| && IsMemory(words)
    ensures forall i :: 0 <= i < |words| ==> Satisfies(constraints[i], words[i])
  {
    if constraints == [] {
      words := [];
    } else {
      var n := |constraints| - 1;
      var front := Witnesses(constraints[..n]);
      assert !HoldsOfNoWord(constraints[n]);
      var word :| Fits(word, 32) && Satisfies(constraints[n], word);
      words := front + [word];
    }
  }

  lemma {:induction false} OneWordIsFirst(bytes: Bytes, constraints: seq<Constraint>, beyond: seq<nat>)
    requires |bytes| == 32
    ensures ConstraintsPass(bytes, constraints, beyond) <==>
            forall i :: 0 <= i < |constraints| ==>
              Satisfies(constraints[i], if i == 0 then Value(bytes) else if i < |beyond| then beyond[i] else 0)
  {
    hide Digits;
    assert bytes[0..32] == bytes;
    assert forall i :: 0 <= i < |constraints| ==>
      WordAt(bytes, i, beyond) == if i == 0 then Value(bytes) else if i < |beyond| then beyond[i] else 0;
  }

  /**
   * Chained constraints mean their conjunction exactly if those after the first hold of every word,
   * or one of them holds of none: the contract checks the second against memory behind a one-word value.
   */
  lemma {:induction false} ChainedConstraints(constraints: seq<Constraint>)
    ensures CheckIsFaithful(constraints) <==>
            || (forall i :: 1 <= i < |constraints| ==> IsTrivial(constraints[i]))
            || (exists c :: c in constraints && IsEmpty(c))
  {
    hide IsTrivial, IsEmpty, HoldsOfAllWords, HoldsOfNoWord;
    forall c ensures HoldsOfAllWords(c) <==> IsTrivial(c) {
      TrivialByBounds(c);
    }
    forall c ensures HoldsOfNoWord(c) <==> IsEmpty(c) {
      EmptyByBounds(c);
    }
    if CheckIsFaithful(constraints) && forall c :: c in constraints ==> !HoldsOfNoWord(c) {
      forall j | 1 <= j < |constraints| ensures HoldsOfAllWords(constraints[j]) {
        LaterConstraintHoldsOfAllWords(constraints, j);
      }
    }
    if forall i :: 1 <= i < |constraints| ==> HoldsOfAllWords(constraints[i]) {
      TrivialChain(constraints);
    }
    if c :| c in constraints && HoldsOfNoWord(c) {
      EmptyChain(constraints, c);
    }
  }

  /** At least 5 and at most 10, chained as the SDK does it: 20 passes exactly if the next word of memory is at most 10. */
  lemma {:induction false} RangeByChainFails(kind: Kind, fetcherData: Bytes, beyond: seq<nat>)
    ensures var param := DynamicParam(kind, fetcherData, []).With(GTE(5)).With(LTE(10));
            && param.constraints == [GTE(5), LTE(10)]
            && !SatisfiesAll(param.constraints, 20)
            && (ConstraintsPass(BigEndian(20, 32), param.constraints, beyond) <==> |beyond| <= 1 || beyond[1] <= 10)
            && !CheckIsFaithful(param.constraints)
  {
    hide Digits, CheckIsFaithful, Fits;
    var constraints := [GTE(5), LTE(10)];
    ByteFits(20, 32);
    OneWordIsFirst(BigEndian(20, 32), constraints, beyond);
    assert LTE(10) in constraints && !Satisfies(LTE(10), 20);
    ChainedConstraints(constraints);
    WordsUpToMax(0);
    assert !IsTrivial(constraints[1]);
  }

  lemma {:induction false} LaterConstraintHoldsOfAllWords(constraints: seq<Constraint>, j: nat)
    requires CheckIsFaithful(constraints) && 1 <= j < |constraints|
    requires forall c :: c in constraints ==> !HoldsOfNoWord(c)
    ensures HoldsOfAllWords(constraints[j])
  {
    hide Digits;
    var words := Witnesses(constraints);
    assert words[0] in words;
    var bytes := BigEndian(words[0], 32);
    OneWordIsFirst(bytes, constraints, words);
    assert ConstraintsPass(bytes, constraints, words);
    forall word | Fits(word, 32) ensures Satisfies(constraints[j], word) {
      OneWordIsFirst(bytes, constraints, words[j := word]);
      assert IsMemory(words[j := word]);
      assert words[j := word][j] == word;
    }
  }

  lemma {:induction false} TrivialChain(constraints: seq<Constraint>)
    requires forall i :: 1 <= i < |constraints| ==> HoldsOfAllWords(constraints[i])
    ensures CheckIsFaithful(constraints)
  {
    hide Digits;
    ZeroFits();
    forall bytes: Bytes, beyond | |bytes| == 32 && IsMemory(beyond)
      ensures ConstraintsPass(bytes, constraints, beyond) <==> SatisfiesAll(constraints, Value(bytes))
    {
      assert Fits(Value(bytes), 32);
      OneWordIsFirst(bytes, constraints, beyond);
    }
  }

  lemma {:induction false} EmptyChain(constraints: seq<Constraint>, c: Constraint)
    requires c in constraints && HoldsOfNoWord(c)
    ensures CheckIsFaithful(constraints)
  {
    hide Digits;
    ZeroFits();
    forall bytes: Bytes, beyond | |bytes| == 32 && IsMemory(beyond)
      ensures !ConstraintsPass(bytes, constraints, beyond) && !SatisfiesAll(constraints, Value(bytes))
    {
      assert Fits(Value(bytes), 32);
      OneWordIsFirst(bytes, constraints, beyond);
      var i :| 0 <= i < |constraints| && constraints[i] == c;
    }
  }

  lemma ZeroFits()
    ensures Fits(0, 32)
  {
    ByteFits(0, 32);
  }

  // ----- Predicates -----

  ghost predicate ConditionHolds(condition: DynamicParam, world: World, beyond: seq<nat>) {
    var bytes := Fetch(world, condition.kind, condition.fetcherData);
    bytes.Some? && ConstraintsPass(bytes.value, condition.constraints, beyond)
  }

  /** A predicate step runs through exactly if each of its conditions can be fetched and passes its check. */
  lemma {:induction false} PredicateRunsIff(conditions: seq<DynamicParam>, world: World, beyond: seq<nat>)
    ensures Execute(world, beyond, EncodePredicate(conditions)).Ok? <==>
            forall c :: c in conditions ==> ConditionHolds(c, world, beyond)
    ensures Execute(world, beyond, EncodePredicate(conditions)).Ok? ==>
            var call := Execute(world, beyond, EncodePredicate(conditions)).value;
            call.target.None? && call.value.None?
  {
    hide ConstraintsPass;
    var params := EncodePredicate(conditions).inputParams;
    if conditions != [] {
      var n := |conditions| - 1;
      PredicateRunsIff(conditions[..n], world, beyond);
      assert params[..n] == EncodePredicate(conditions[..n]).inputParams;
      assert conditions == conditions[..n] + [conditions[n]];
      assert Processed(world, beyond, params[n]).Ok? <==> ConditionHolds(conditions[n], world, beyond);
    }
  }
}
