/**
 * Values encoded one by one, and put one behind the other, against their encoding all together:
 * what they have in common is the size, and exactly when they are equal.
 */
module SeparateEncoding {
  import opened Abi

  // ----- Static values -----

  ghost predicate AllStatic(items: seq<Abi>) {
    forall item :: item in items ==> !IsDynamic(item)
  }

  ghost function EncodeAll(items: seq<Abi>): Bytes {
    if items == [] then [] else EncodeAll(items[..|items| - 1]) + Encode(items[|items| - 1])
  }

  lemma {:induction false} FlattenSnoc(blocks: seq<Bytes>, last: Bytes)
    ensures Flatten(blocks + [last]) == Flatten(blocks) + last
  {
    if blocks == [] {
      assert [last][1..] == [];
    } else {
      assert (blocks + [last])[1..] == blocks[1..] + [last];
      FlattenSnoc(blocks[1..], last);
    }
  }

  lemma NothingFlattened()
    ensures Flatten([]) == []
  {
  }

  lemma {:induction false} HeadsOfStatic(items: seq<Abi>, heads: seq<Bytes>)
    requires |heads| == |items| && forall i :: 0 <= i < |items| ==> heads[i] == Encode(items[i])
    ensures Flatten(heads) == EncodeAll(items)
  {
    hide Encode, Flatten;
    if items == [] {
      NothingFlattened();
    } else {
      var n := |items| - 1;
      HeadsOfStatic(items[..n], heads[..n]);
      FlattenSnoc(heads[..n], heads[n]);
      assert heads[..n] + [heads[n]] == heads;
    }
  }

  /** A tuple of static values is encoded as their encodings one after the other. */
  lemma {:induction false} StaticTuple(items: seq<Abi>)
    requires AllStatic(items)
    ensures Encode(Tuple(items)) == EncodeAll(items) && !IsDynamic(Tuple(items))
  {
    var parts := Parts(items);
    HeadsOfStatic(items, HeadList(parts, HeadSize(parts)));
    EqualBlocks(TailList(parts), 0);
    assert Encode(Tuple(items)) == EncodeAll(items) + [];
  }

  lemma StaticNothing()
    ensures AllStatic([]) && EncodeAll([]) == []
  {
  }

  // ----- Values encoded alone -----

  /** encodeAbiParameters of a single value. */
  ghost function Alone(v: Abi): Bytes {
    Encode(Tuple([v]))
  }

  ghost function Blocks(items: seq<Abi>): (blocks: seq<Bytes>)
    ensures |blocks| == |items| && forall i :: 0 <= i < |items| ==> blocks[i] == Alone(items[i])
  {
    seq(|items|, i requires 0 <= i < |items| => Alone(items[i]))
  }

  lemma {:induction false} StaticAlone(v: Abi)
    requires !IsDynamic(v)
    ensures Alone(v) == Encode(v)
  {
    hide Encode, IsDynamic;
    StaticTuple([v]);
    assert [v][..0] == [];
    assert EncodeAll([v]) == [] + Encode(v);
  }

  lemma {:induction false} FlattenOne(block: Bytes)
    ensures Flatten([block]) == block
  {
    assert [block][1..] == [];
  }

  /** A dynamic value alone: an offset of 32, and the value. */
  lemma {:induction false} DynamicAlone(v: Abi)
    requires IsDynamic(v)
    ensures Alone(v) == BigEndian(32, 32) + Encode(v)
  {
    hide IsDynamic, BigEndian;
    var parts := Parts([v]);
    assert parts == [Part(true, Encode(v))];
    LastTailAt(parts);
    var heads := HeadList(parts, HeadSize(parts));
    assert heads == [BigEndian(32, 32)];
    FlattenOne(BigEndian(32, 32));
    assert TailList(parts) == [Encode(v)];
    FlattenOne(Encode(v));
  }

  // ----- Blocks -----

  lemma {:induction false} TwoBlocks(blocks: seq<Bytes>, i: nat, j: nat)
    requires i < j < |blocks|
    ensures |blocks[i]| + |blocks[j]| <= |Flatten(blocks)|
  {
    if i == 0 {
      BlockStandsAt(blocks[1..], j - 1);
    } else {
      TwoBlocks(blocks[1..], i - 1, j - 1);
    }
  }

  // ----- One behind the other, or all together -----

  lemma {:induction false} SameFront(items: seq<Abi>, i: nat)
    requires i < |items| && AllStatic(items[..i])
    ensures Blocks(items)[..i] == HeadList(Parts(items), HeadSize(Parts(items)))[..i]
    ensures TailAt(Parts(items), HeadSize(Parts(items)), i) == HeadSize(Parts(items))
  {
    hide IsDynamic, BigEndian, Encode, HeadSize;
    var parts := Parts(items);
    var heads := HeadList(parts, HeadSize(parts));
    forall j | 0 <= j < i ensures Blocks(items)[j] == heads[j] && !parts[j].isDynamic {
      assert items[..i][j] in items[..i];
      StaticAlone(items[j]);
    }
    assert forall j :: 0 <= j < i ==> TailList(parts)[..i][j] == [];
    EqualBlocks(TailList(parts)[..i], 0);
  }

  /** In front of the first dynamic item the two encodings agree, and there they have their first offset. */
  lemma {:induction false} FirstOffsets(items: seq<Abi>, i: nat)
    requires i < |items| && IsDynamic(items[i]) && AllStatic(items[..i])
    ensures Holds(Flatten(Blocks(items)), HeadAt(Parts(items), i), BigEndian(32, 32))
    ensures Holds(Layout(Parts(items)), HeadAt(Parts(items), i), BigEndian(HeadSize(Parts(items)), 32))
  {
    hide IsDynamic, BigEndian, Encode, HeadSize, Layout, Holds, AllStatic;
    var parts := Parts(items);
    SameFront(items, i);
    BlockStandsAt(Blocks(items), i);
    DynamicAlone(items[i]);
    HoldsBoth(Flatten(Blocks(items)), HeadAt(parts, i), BigEndian(32, 32), Encode(items[i]));
    HeadIsFound(parts, i);
  }

  lemma {:induction false} FirstDynamic(items: seq<Abi>) returns (i: nat)
    requires !AllStatic(items)
    ensures i < |items| && IsDynamic(items[i]) && AllStatic(items[..i])
  {
    if AllStatic(items[..|items| - 1]) {
      i := |items| - 1;
      assert items == items[..i] + [items[i]];
    } else {
      i := FirstDynamic(items[..|items| - 1]);
      assert items[..|items| - 1][..i] == items[..i];
    }
  }

  /** A number too wide for a word is not written as 32. */
  lemma {:induction false} SameHeldWord(buffer: Bytes, at: nat, n: nat)
    requires Holds(buffer, at, BigEndian(32, 32)) && Holds(buffer, at, BigEndian(n, 32))
    ensures n == 32
  {
    ByteFits(32, 32);
    assert BigEndian(32, 32) == BigEndian(n, 32);
    if !Fits(n, 32) {
      NotZero();
    }
  }

  lemma {:induction false} NotZero()
    ensures BigEndian(32, 32) != seq(32, _ => 0)
  {
    ByteFits(32, 32);
    LeadingZeros([], 32, 32);
    assert seq(32, _ => 0) + [] == seq(32, _ => 0 as Byte);
  }

  /** A dynamic item whose head is all there is: nothing else takes any room. */
  lemma {:induction false} OthersTakeNoRoom(items: seq<Abi>, i: nat, j: nat)
    requires i < |items| && IsDynamic(items[i]) && HeadSize(Parts(items)) == 32
    requires j < |items| && j != i
    ensures HeadList(Parts(items), 32)[j] == [] && TailList(Parts(items))[j] == [] && Blocks(items)[j] == []
  {
    hide IsDynamic, BigEndian, Encode, HeadSize;
    var parts := Parts(items);
    HeadsHaveTheirSize(parts, 32);
    TwoBlocks(HeadList(parts, 32), if i < j then i else j, if i < j then j else i);
    assert |HeadList(parts, 32)[i]| == 32;
    StaticAlone(items[j]);
  }

  lemma {:induction false} StaticBlocks(items: seq<Abi>)
    requires AllStatic(items)
    ensures Flatten(Blocks(items)) == Encode(Tuple(items))
  {
    hide IsDynamic;
    var parts := Parts(items);
    forall j | 0 <= j < |items| ensures Blocks(items)[j] == HeadList(parts, HeadSize(parts))[j] {
      assert items[j] in items;
      StaticAlone(items[j]);
    }
    assert Blocks(items) == HeadList(parts, HeadSize(parts));
    assert forall j :: 0 <= j < |items| ==> items[j] in items;
    EqualBlocks(TailList(parts), 0);
    assert Flatten(Blocks(items)) + [] == Flatten(Blocks(items));
  }

  // ----- Sizes -----

  lemma {:induction false} SumLengths(a: seq<Bytes>, b: seq<Bytes>, c: seq<Bytes>)
    requires |a| == |b| == |c| && forall i :: 0 <= i < |a| ==> |a[i]| + |b[i]| == |c[i]|
    ensures |Flatten(a)| + |Flatten(b)| == |Flatten(c)|
  {
    if a != [] {
      SumLengths(a[1..], b[1..], c[1..]);
    }
  }

  /** One by one or all together, values take the same room. */
  lemma {:induction false} SameSize(items: seq<Abi>)
    ensures |Flatten(Blocks(items))| == |Encode(Tuple(items))|
  {
    hide IsDynamic, BigEndian, HeadSize, Encode;
    var parts := Parts(items);
    var heads := HeadList(parts, HeadSize(parts));
    forall i | 0 <= i < |items| ensures |heads[i]| + |TailList(parts)[i]| == |Blocks(items)[i]| {
      if IsDynamic(items[i]) {
        DynamicAlone(items[i]);
      } else {
        StaticAlone(items[i]);
      }
    }
    SumLengths(heads, TailList(parts), Blocks(items));
    TupleIsLayout(items);
  }

  // ----- The exact condition -----

  lemma TupleIsLayout(items: seq<Abi>)
    ensures Encode(Tuple(items)) == Layout(Parts(items))
  {
  }

  lemma {:induction false} OneBlock(v: Abi)
    ensures Flatten(Blocks([v])) == Encode(Tuple([v]))
  {
    hide Encode;
    assert Blocks([v]) == [Alone(v)];
    FlattenOne(Alone(v));
  }

  /** Values of which none is empty: encoded one by one they read as one tuple only if all are static, or there is just one. */
  lemma {:induction false} SeparateIff(items: seq<Abi>)
    ensures AllStatic(items) || |items| == 1 ==> Flatten(Blocks(items)) == Encode(Tuple(items))
    ensures (forall item :: item in items ==> Alone(item) != []) ==>
              (Flatten(Blocks(items)) == Encode(Tuple(items)) <==> AllStatic(items) || |items| == 1)
  {
    hide IsDynamic, BigEndian, Encode, Layout, HeadSize, Alone, Flatten, Holds;
    TupleIsLayout(items);
    if AllStatic(items) {
      StaticBlocks(items);
    } else if |items| == 1 {
      assert items == [items[0]];
      OneBlock(items[0]);
    } else if Flatten(Blocks(items)) == Encode(Tuple(items)) {
      var i := FirstDynamic(items);
      FirstOffsets(items, i);
      SameHeldWord(Layout(Parts(items)), HeadAt(Parts(items), i), HeadSize(Parts(items)));
      var j := if i == 0 then 1 else 0;
      OthersTakeNoRoom(items, i, j);
      assert items[j] in items && Alone(items[j]) == [];
    }
  }
}
