/**
 * Byte strings and the Contract ABI encoding, after the section "Formal Specification of
 * the Encoding" of the Solidity Contract ABI Specification.
 */
module Abi {
  type Byte = b: int | 0 <= b < 256

  type Bytes = seq<Byte>

  // ----- Big-endian numbers -----

  /** The number that the first `count` bytes stand for. */
  function Digits(bytes: Bytes, count: nat): nat
    requires count <= |bytes|
  {
    if count == 0 then 0 else 256 * Digits(bytes, count - 1) + bytes[count - 1]
  }

  function Value(bytes: Bytes): nat {
    Digits(bytes, |bytes|)
  }

  /** n is the value of some `width` bytes. */
  ghost predicate Fits(n: nat, width: nat) {
    exists bytes: Bytes :: |bytes| == width && Value(bytes) == n
  }

  /** The `width` bytes whose value is n. */
  ghost function BigEndian(n: nat, width: nat): (bytes: Bytes)
    ensures |bytes| == width
    ensures Fits(n, width) ==> Value(bytes) == n
  {
    if Fits(n, width) then
      var bytes: Bytes :| |bytes| == width && Value(bytes) == n;
      bytes
    else seq(width, _ => 0)
  }

  lemma {:induction false} DigitsAreInjective(a: Bytes, b: Bytes, count: nat)
    requires count <= |a| && count <= |b| && Digits(a, count) == Digits(b, count)
    ensures a[..count] == b[..count]
  {
    if count != 0 {
      var m := count - 1;
      assert 256 * (Digits(a, m) - Digits(b, m)) == b[m] - a[m];
      DigitsAreInjective(a, b, m);
    }
  }

  lemma {:induction false} BigEndianOfValue(bytes: Bytes)
    ensures BigEndian(Value(bytes), |bytes|) == bytes
  {
    var encoded := BigEndian(Value(bytes), |bytes|);
    assert Fits(Value(bytes), |bytes|);
    DigitsAreInjective(encoded, bytes, |bytes|);
    assert encoded[..|bytes|] == encoded && bytes[..|bytes|] == bytes;
  }

  lemma {:induction false} LeadingZeros(bytes: Bytes, zeros: nat, count: nat)
    requires count <= zeros + |bytes|
    ensures Digits(seq(zeros, _ => 0) + bytes, count) == if count <= zeros then 0 else Digits(bytes, count - zeros)
  {
    if count != 0 {
      LeadingZeros(bytes, zeros, count - 1);
    }
  }

  /** A wider encoding of the same number only has more leading zeros. */
  lemma {:induction false} LowDigits(n: nat, width: nat, low: nat)
    requires low <= width && Fits(n, low)
    ensures Fits(n, width) && BigEndian(n, width)[width - low..] == BigEndian(n, low)
  {
    var digits := BigEndian(n, low);
    var padded := seq(width - low, _ => 0) + digits;
    LeadingZeros(digits, width - low, width);
    BigEndianOfValue(padded);
    assert padded[width - low..] == digits;
  }

  function Pow256(width: nat): nat {
    if width == 0 then 1 else 256 * Pow256(width - 1)
  }

  /** The numbers of `width` bytes are those below 256 to that power. */
  lemma {:induction false} FitsIffBelow(n: nat, width: nat)
    ensures Fits(n, width) <==> n < Pow256(width)
  {
    if width == 0 {
      assert Value([]) == 0;
    } else {
      FitsIffBelow(n / 256, width - 1);
      if Fits(n, width) {
        var bytes: Bytes :| |bytes| == width && Value(bytes) == n;
        SameDigits(bytes[..width - 1], bytes, width - 1);
        assert Value(bytes[..width - 1]) == n / 256;
      }
      if Fits(n / 256, width - 1) {
        var bytes: Bytes :| |bytes| == width - 1 && Value(bytes) == n / 256;
        SameDigits(bytes, bytes + [n % 256], width - 1);
        assert Value(bytes + [n % 256]) == n;
      }
    }
  }

  lemma {:induction false} SameDigits(a: Bytes, b: Bytes, count: nat)
    requires count <= |a| && count <= |b| && forall k :: 0 <= k < count ==> a[k] == b[k]
    ensures Digits(a, count) == Digits(b, count)
  {
    if count != 0 {
      SameDigits(a, b, count - 1);
    }
  }

  lemma {:induction false} SmallerFits(n: nat, limit: nat, width: nat)
    requires n <= limit && Fits(limit, width)
    ensures Fits(n, width)
  {
    FitsIffBelow(n, width);
    FitsIffBelow(limit, width);
  }

  lemma {:induction false} ByteFits(n: nat, width: nat)
    requires n < 256 && width > 0
    ensures Fits(n, width)
  {
    assert Digits([n], 1) == n;
    LeadingZeros([n], width - 1, width);
    assert |seq(width - 1, _ => 0) + [n]| == width;
  }

  // ----- Parts of a byte string -----

  /** The bytes of `part` stand in `buffer` from position `at` on. */
  ghost predicate Holds(buffer: Bytes, at: nat, part: Bytes) {
    at + |part| <= |buffer| && forall k :: 0 <= k < |part| ==> part[k] == buffer[at + k]
  }

  lemma {:induction false} HoldsMiddle(before: Bytes, part: Bytes, after: Bytes)
    ensures Holds(before + part + after, |before|, part)
  {
  }

  lemma {:induction false} HoldsWithin(buffer: Bytes, at: nat, part: Bytes, inner: nat, piece: Bytes)
    requires Holds(buffer, at, part) && Holds(part, inner, piece)
    ensures Holds(buffer, at + inner, piece)
  {
    assert forall k :: 0 <= k < |piece| ==> piece[k] == part[inner + k];
  }

  lemma {:induction false} HoldsBoth(buffer: Bytes, at: nat, first: Bytes, second: Bytes)
    requires Holds(buffer, at, first + second)
    ensures Holds(buffer, at, first) && Holds(buffer, at + |first|, second)
  {
    assert forall k :: 0 <= k < |first| ==> first[k] == (first + second)[k];
    assert forall k :: 0 <= k < |second| ==> second[k] == (first + second)[|first| + k];
  }

  lemma {:induction false} HoldsAfter(before: Bytes, buffer: Bytes, at: nat, part: Bytes)
    requires Holds(buffer, at, part)
    ensures Holds(before + buffer, |before| + at, part)
  {
  }

  lemma {:induction false} HoldsBefore(buffer: Bytes, after: Bytes, at: nat, part: Bytes)
    requires Holds(buffer, at, part)
    ensures Holds(buffer + after, at, part)
  {
  }

  function Flatten(blocks: seq<Bytes>): Bytes {
    if blocks == [] then [] else blocks[0] + Flatten(blocks[1..])
  }

  lemma {:induction false} BlockStandsAt(blocks: seq<Bytes>, i: nat)
    requires i < |blocks|
    ensures Holds(Flatten(blocks), |Flatten(blocks[..i])|, blocks[i])
    ensures |Flatten(blocks[..i])| + |blocks[i]| == |Flatten(blocks[..i + 1])|
  {
    var first, rest := blocks[0], blocks[1..];
    assert blocks[..i + 1][1..] == rest[..i];
    if i == 0 {
      HoldsMiddle([], first, Flatten(rest));
      assert [] + first + Flatten(rest) == Flatten(blocks);
    } else {
      BlockStandsAt(rest, i - 1);
      assert blocks[..i][1..] == rest[..i - 1];
      HoldsAfter(first, Flatten(rest), |Flatten(rest[..i - 1])|, blocks[i]);
    }
  }

  lemma {:induction false} SameLengths(a: seq<Bytes>, b: seq<Bytes>)
    requires |a| == |b| && forall i :: 0 <= i < |a| ==> |a[i]| == |b[i]|
    ensures |Flatten(a)| == |Flatten(b)|
  {
    if a != [] {
      SameLengths(a[1..], b[1..]);
    }
  }

  lemma {:induction false} EqualBlocks(blocks: seq<Bytes>, length: nat)
    requires forall i :: 0 <= i < |blocks| ==> |blocks[i]| == length
    ensures |Flatten(blocks)| == length * |blocks|
  {
    if blocks != [] {
      EqualBlocks(blocks[1..], length);
    }
  }

  // ----- Heads and tails -----

  /** An encoded component. Dynamic ones are referred to by an offset, static ones stand in place. */
  datatype Part = Part(isDynamic: bool, bytes: Bytes) {
    ghost function Head(offset: nat): Bytes {
      if isDynamic then BigEndian(offset, 32) else bytes
    }

    function Tail(): Bytes {
      if isDynamic then bytes else []
    }
  }

  function TailList(parts: seq<Part>): (tails: seq<Bytes>)
    ensures |tails| == |parts| && forall i :: 0 <= i < |tails| ==> tails[i] == parts[i].Tail()
  {
    seq(|parts|, i requires 0 <= i < |parts| => parts[i].Tail())
  }

  /** The heads, if the tails start at position `base`. */
  ghost function HeadList(parts: seq<Part>, base: nat): (heads: seq<Bytes>)
    ensures |heads| == |parts|
    ensures forall i :: 0 <= i < |heads| ==> heads[i] == parts[i].Head(TailAt(parts, base, i))
  {
    seq(|parts|, i requires 0 <= i < |parts| => parts[i].Head(TailAt(parts, base, i)))
  }

  /** Where the tail of component i starts. */
  ghost function TailAt(parts: seq<Part>, base: nat, i: nat): nat
    requires i <= |parts|
  {
    base + |Flatten(TailList(parts)[..i])|
  }

  /** The length of all heads, which does not depend on the offsets in them. */
  ghost function HeadSize(parts: seq<Part>): nat {
    |Flatten(HeadList(parts, 0))|
  }

  ghost function HeadAt(parts: seq<Part>, i: nat): nat
    requires i <= |parts|
  {
    |Flatten(HeadList(parts, HeadSize(parts))[..i])|
  }

  /** All heads, then all tails; offsets count from the start of the heads. */
  ghost function Layout(parts: seq<Part>): Bytes {
    Flatten(HeadList(parts, HeadSize(parts))) + Flatten(TailList(parts))
  }

  lemma {:induction false} HeadsHaveTheirSize(parts: seq<Part>, base: nat)
    ensures |Flatten(HeadList(parts, base))| == HeadSize(parts)
  {
    SameLengths(HeadList(parts, base), HeadList(parts, 0));
  }

  lemma {:induction false} HeadIsFound(parts: seq<Part>, i: nat)
    requires i < |parts|
    ensures Holds(Layout(parts), HeadAt(parts, i), parts[i].Head(TailAt(parts, HeadSize(parts), i)))
  {
    var heads, tails := HeadList(parts, HeadSize(parts)), TailList(parts);
    BlockStandsAt(heads, i);
    HoldsBefore(Flatten(heads), Flatten(tails), HeadAt(parts, i), heads[i]);
  }

  lemma {:induction false} TailIsFound(parts: seq<Part>, i: nat)
    requires i < |parts|
    ensures Holds(Layout(parts), TailAt(parts, HeadSize(parts), i), parts[i].Tail())
    ensures TailAt(parts, HeadSize(parts), i) + |parts[i].Tail()| == TailAt(parts, HeadSize(parts), i + 1)
  {
    var heads, tails := HeadList(parts, HeadSize(parts)), TailList(parts);
    HeadsHaveTheirSize(parts, HeadSize(parts));
    BlockStandsAt(tails, i);
    HoldsAfter(Flatten(heads), Flatten(tails), |Flatten(tails[..i])|, tails[i]);
  }

  /** Whoever follows the head of a component finds the component itself. */
  lemma {:induction false} ComponentIsFound(parts: seq<Part>, i: nat)
    requires i < |parts|
    ensures var tailAt := TailAt(parts, HeadSize(parts), i);
            && Holds(Layout(parts), HeadAt(parts, i), parts[i].Head(tailAt))
            && Holds(Layout(parts), tailAt, parts[i].Tail())
            && tailAt + |parts[i].Tail()| == TailAt(parts, HeadSize(parts), i + 1)
  {
    HeadIsFound(parts, i);
    TailIsFound(parts, i);
  }

  lemma {:induction false} LastTailEndsLayout(parts: seq<Part>)
    ensures TailAt(parts, HeadSize(parts), |parts|) == |Layout(parts)|
  {
    HeadsHaveTheirSize(parts, HeadSize(parts));
    assert TailList(parts)[..|parts|] == TailList(parts);
  }

  /** Each head is one word. */
  ghost predicate WordHeads(parts: seq<Part>) {
    forall i :: 0 <= i < |parts| ==> parts[i].isDynamic || |parts[i].bytes| == 32
  }

  lemma {:induction false} WordHeadsAt(parts: seq<Part>, i: nat)
    requires WordHeads(parts) && i <= |parts|
    ensures HeadSize(parts) == 32 * |parts| && HeadAt(parts, i) == 32 * i
  {
    EqualBlocks(HeadList(parts, 0), 32);
    EqualBlocks(HeadList(parts, HeadSize(parts))[..i], 32);
  }

  /** With a single dynamic component, the last, its tail follows right after the heads and ends the layout. */
  lemma {:induction false} LastTailAt(parts: seq<Part>)
    requires WordHeads(parts) && parts != []
    requires forall i :: 0 <= i < |parts| - 1 ==> !parts[i].isDynamic
    ensures TailAt(parts, HeadSize(parts), |parts| - 1) == 32 * |parts|
    ensures |Layout(parts)| == 32 * |parts| + |parts[|parts| - 1].Tail()|
  {
    WordHeadsAt(parts, 0);
    EqualBlocks(TailList(parts)[..|parts| - 1], 0);
    ComponentIsFound(parts, |parts| - 1);
    LastTailEndsLayout(parts);
  }

  // ----- Encoding -----

  /** A value together with its shape; a fixed-size array is a tuple of its elements. */
  datatype Abi = Word(value: nat) | Blob(data: Bytes) | List(items: seq<Abi>) | Tuple(items: seq<Abi>)

  predicate IsDynamic(v: Abi) {
    match v
    case Word(_) => false
    case Blob(_) => true
    case List(_) => true
    case Tuple(items) => exists item :: item in items && IsDynamic(item)
  }

  /** How many bytes are missing to a multiple of 32. */
  function Padding(length: nat): (missing: nat)
    ensures missing < 32 && (length == 0 ==> missing == 0)
  {
    if length == 0 then 0 else if length <= 32 then 32 - length else Padding(length - 32)
  }

  function Padded(data: Bytes): (padded: Bytes)
    ensures |padded| == |data| + Padding(|data|) && padded[..|data|] == data
    ensures data == [] ==> padded == []
  {
    data + seq(Padding(|data|), _ => 0)
  }

  ghost function Encode(v: Abi): Bytes
    decreases v, 1
  {
    match v
    case Word(n) => BigEndian(n, 32)
    case Blob(data) => BigEndian(|data|, 32) + Padded(data)
    case List(items) => BigEndian(|items|, 32) + Layout(Parts(items))
    case Tuple(items) => Layout(Parts(items))
  }

  ghost function Parts(items: seq<Abi>): (parts: seq<Part>)
    ensures |parts| == |items|
    ensures forall i :: 0 <= i < |items| ==> parts[i] == Part(IsDynamic(items[i]), Encode(items[i]))
    decreases items, 0
  {
    seq(|items|, i requires 0 <= i < |items| => Part(IsDynamic(items[i]), Encode(items[i])))
  }
}
