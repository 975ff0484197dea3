/**
 * The greedy packing of the batcher: completed simulations are laid out, in order, in
 * blocks under a gas cap. The loop is proved to produce the next-fit packing, described
 * here by what it looks like rather than by how it is computed, and every packing of that
 * shape is proved to be within the known optimality bounds.
 */
module Packing {
  import opened UserOps

  datatype GasConfig = GasConfig(paymasterVerificationGas: nat, paymasterPostOpGas: nat)

  datatype Batch = Batch(batchGasLimit: nat, meeUserOps: seq<MeeUserOp>)

  /** The gas a user operation takes up in a block; preVerificationGas is not spent during execution. */
  function BlockGas(cfg: GasConfig, op: MeeUserOp): nat {
    op.verificationGasLimit + op.callGasLimit + cfg.paymasterVerificationGas + cfg.paymasterPostOpGas
  }

  function TotalGas(cfg: GasConfig, ops: seq<MeeUserOp>): nat {
    if ops == [] then 0 else TotalGas(cfg, ops[..|ops| - 1]) + BlockGas(cfg, ops[|ops| - 1])
  }

  function Concat(parts: seq<seq<MeeUserOp>>): seq<MeeUserOp> {
    if parts == [] then [] else Concat(parts[..|parts| - 1]) + parts[|parts| - 1]
  }

  function Contents(batches: seq<Batch>): (parts: seq<seq<MeeUserOp>>)
    ensures |parts| == |batches|
  {
    seq(|batches|, i requires 0 <= i < |batches| => batches[i].meeUserOps)
  }

  /** The user operations that fit in a block at all, in order. */
  function Admitted(cfg: GasConfig, cap: nat, ops: seq<MeeUserOp>): seq<MeeUserOp> {
    if ops == [] then []
    else
      var last := ops[|ops| - 1];
      Admitted(cfg, cap, ops[..|ops| - 1]) + if BlockGas(cfg, last) > cap then [] else [last]
  }

  /** The user operations that fit in no block, in order. */
  function Oversized(cfg: GasConfig, cap: nat, ops: seq<MeeUserOp>): seq<MeeUserOp> {
    if ops == [] then []
    else
      var last := ops[|ops| - 1];
      Oversized(cfg, cap, ops[..|ops| - 1]) + if BlockGas(cfg, last) > cap then [last] else []
  }

  /** The parts are consecutive stretches of `ops`, each within the cap; a part may be empty. */
  ghost predicate IsSplit(cfg: GasConfig, cap: nat, ops: seq<MeeUserOp>, parts: seq<seq<MeeUserOp>>) {
    && Concat(parts) == ops
    && forall i :: 0 <= i < |parts| ==> TotalGas(cfg, parts[i]) <= cap
  }

  /** A split without empty parts in which the first operation of a part never fitted in the part before. */
  ghost predicate IsNextFitSplit(cfg: GasConfig, cap: nat, ops: seq<MeeUserOp>, parts: seq<seq<MeeUserOp>>) {
    && IsSplit(cfg, cap, ops, parts)
    && (forall i :: 0 <= i < |parts| ==> parts[i] != [])
    && (forall i :: 0 < i < |parts| ==> Overflows(cfg, cap, parts, i))
  }

  /** The first operation of part i does not fit in the part before. */
  ghost predicate Overflows(cfg: GasConfig, cap: nat, parts: seq<seq<MeeUserOp>>, i: nat)
    requires 0 < i < |parts| && parts[i] != []
  {
    TotalGas(cfg, parts[i - 1]) + BlockGas(cfg, parts[i][0]) > cap
  }

  /** The batches of a next-fit split, each labelled with its own gas total. */
  ghost predicate IsNextFit(cfg: GasConfig, cap: nat, ops: seq<MeeUserOp>, batches: seq<Batch>) {
    && IsNextFitSplit(cfg, cap, ops, Contents(batches))
    && forall i :: 0 <= i < |batches| ==> batches[i].batchGasLimit == TotalGas(cfg, batches[i].meeUserOps)
  }

  lemma {:induction false} ConcatSnoc(parts: seq<seq<MeeUserOp>>, part: seq<MeeUserOp>)
    ensures Concat(parts + [part]) == Concat(parts) + part
  {
    assert (parts + [part])[..|parts|] == parts;
  }

  lemma ContentsSnoc(batches: seq<Batch>, batch: Batch)
    ensures Contents(batches + [batch]) == Contents(batches) + [batch.meeUserOps]
  {
  }

  lemma TotalGasSnoc(cfg: GasConfig, ops: seq<MeeUserOp>, op: MeeUserOp)
    ensures TotalGas(cfg, ops + [op]) == TotalGas(cfg, ops) + BlockGas(cfg, op)
  {
    assert (ops + [op])[..|ops|] == ops;
  }

  lemma FilterSnoc(cfg: GasConfig, cap: nat, ops: seq<MeeUserOp>, op: MeeUserOp)
    ensures Admitted(cfg, cap, ops + [op]) ==
            Admitted(cfg, cap, ops) + if BlockGas(cfg, op) > cap then [] else [op]
    ensures Oversized(cfg, cap, ops + [op]) ==
            Oversized(cfg, cap, ops) + if BlockGas(cfg, op) > cap then [op] else []
  {
    assert (ops + [op])[..|ops|] == ops;
  }

  /** The loop's state: finished batches, and an open batch that the last finished one could not have started. */
  ghost predicate OpenPacking(cfg: GasConfig, cap: nat, ops: seq<MeeUserOp>, batches: seq<Batch>, batch: Batch) {
    && IsNextFit(cfg, cap, Concat(Contents(batches)), batches)
    && Concat(Contents(batches)) + batch.meeUserOps == ops
    && batch.batchGasLimit == TotalGas(cfg, batch.meeUserOps) <= cap
    && (batch.meeUserOps == [] ==> batches == [])
    && (batches != [] ==> batches[|batches| - 1].batchGasLimit + BlockGas(cfg, batch.meeUserOps[0]) > cap)
  }

  lemma CloseBatch(cfg: GasConfig, cap: nat, ops: seq<MeeUserOp>, batches: seq<Batch>, batch: Batch)
    requires OpenPacking(cfg, cap, ops, batches, batch) && batch.meeUserOps != []
    ensures IsNextFit(cfg, cap, ops, batches + [batch])
    ensures Concat(Contents(batches + [batch])) == ops
  {
    ContentsSnoc(batches, batch);
    ConcatSnoc(Contents(batches), batch.meeUserOps);
    var before, parts := Contents(batches), Contents(batches + [batch]);
    forall i | 0 < i < |parts| ensures Overflows(cfg, cap, parts, i) {
      assert i < |before| ==> Overflows(cfg, cap, before, i);
    }
  }

  lemma StartBatch(cfg: GasConfig, cap: nat, ops: seq<MeeUserOp>, batches: seq<Batch>, batch: Batch, op: MeeUserOp)
    requires OpenPacking(cfg, cap, ops, batches, batch)
    requires batch.batchGasLimit + BlockGas(cfg, op) > cap >= BlockGas(cfg, op)
    ensures OpenPacking(cfg, cap, ops + [op], batches + [batch], Batch(0 + BlockGas(cfg, op), [] + [op]))
  {
    CloseBatch(cfg, cap, ops, batches, batch);
    TotalGasSnoc(cfg, [], op);
  }

  lemma ExtendBatch(cfg: GasConfig, cap: nat, ops: seq<MeeUserOp>, batches: seq<Batch>, batch: Batch, op: MeeUserOp)
    requires OpenPacking(cfg, cap, ops, batches, batch)
    requires batch.batchGasLimit + BlockGas(cfg, op) <= cap
    ensures OpenPacking(cfg, cap, ops + [op], batches, Batch(batch.batchGasLimit + BlockGas(cfg, op), batch.meeUserOps + [op]))
  {
    TotalGasSnoc(cfg, batch.meeUserOps, op);
    assert Concat(Contents(batches)) + (batch.meeUserOps + [op]) == ops + [op];
  }

  /**
   * The packing loop. The batches form the next-fit packing of the admitted operations;
   * the operations that are skipped, because no block can hold them, are exactly the rest.
   */
  /** Whether the operation by itself is within the cap: what it verifies and calls with, and what the paymaster needs. */
  predicate IsWithin(cfg: GasConfig, cap: nat, op: MeeUserOp) {
    op.verificationGasLimit + op.callGasLimit + cfg.paymasterVerificationGas + cfg.paymasterPostOpGas <= cap
  }

  function VerificationGas(ops: seq<MeeUserOp>): nat {
    if ops == [] then 0 else VerificationGas(ops[..|ops| - 1]) + ops[|ops| - 1].verificationGasLimit
  }

  function CallGas(ops: seq<MeeUserOp>): nat {
    if ops == [] then 0 else CallGas(ops[..|ops| - 1]) + ops[|ops| - 1].callGasLimit
  }

  /** A block's gas: the operations' own gas, and for each of them what the paymaster needs. */
  predicate IsGasOf(cfg: GasConfig, ops: seq<MeeUserOp>, gas: nat) {
    gas == VerificationGas(ops) + CallGas(ops) + |ops| * (cfg.paymasterVerificationGas + cfg.paymasterPostOpGas)
  }

  lemma {:induction false} TotalGasIs(cfg: GasConfig, ops: seq<MeeUserOp>)
    ensures IsGasOf(cfg, ops, TotalGas(cfg, ops))
  {
    if ops != [] {
      var n := |ops| - 1;
      TotalGasIs(cfg, ops[..n]);
      var each := cfg.paymasterVerificationGas + cfg.paymasterPostOpGas;
      assert |ops| * each == n * each + each;
    }
  }

  lemma {:induction false} BatchGasIs(cfg: GasConfig, cap: nat, ops: seq<MeeUserOp>, batches: seq<Batch>)
    requires IsNextFit(cfg, cap, ops, batches)
    ensures forall b :: b in batches ==> IsGasOf(cfg, b.meeUserOps, b.batchGasLimit) && b.batchGasLimit <= cap
  {
    hide IsGasOf;
    forall b | b in batches ensures IsGasOf(cfg, b.meeUserOps, b.batchGasLimit) && b.batchGasLimit <= cap {
      var i :| 0 <= i < |batches| && batches[i] == b;
      TotalGasIs(cfg, b.meeUserOps);
      assert Contents(batches)[i] == b.meeUserOps;
    }
  }

  lemma {:induction false} PackedByGas(cfg: GasConfig, cap: nat, ops: seq<MeeUserOp>, batches: seq<Batch>)
    requires IsNextFit(cfg, cap, Admitted(cfg, cap, ops), batches)
    ensures forall op :: op in Oversized(cfg, cap, ops) <==> op in ops && !IsWithin(cfg, cap, op)
    ensures forall b :: b in batches ==> IsGasOf(cfg, b.meeUserOps, b.batchGasLimit) && b.batchGasLimit <= cap
  {
    BatchGasIs(cfg, cap, Admitted(cfg, cap, ops), batches);
    PackingSortsByGas(cfg, cap, ops);
  }

  method PackCompletedSimulations(cfg: GasConfig, cap: nat, ops: seq<MeeUserOp>)
    returns (batches: seq<Batch>, skipped: seq<MeeUserOp>)
    ensures IsNextFit(cfg, cap, Admitted(cfg, cap, ops), batches)
    ensures skipped == Oversized(cfg, cap, ops)
    ensures forall op :: op in skipped <==> op in ops && !IsWithin(cfg, cap, op)
    ensures forall b :: b in batches ==> IsGasOf(cfg, b.meeUserOps, b.batchGasLimit) && b.batchGasLimit <= cap
  {
    batches, skipped := [], [];
    var batch := Batch(0, []);
    for i := 0 to |ops|
      invariant skipped == Oversized(cfg, cap, ops[..i])
      invariant OpenPacking(cfg, cap, Admitted(cfg, cap, ops[..i]), batches, batch)
    {
      var op := ops[i];
      ghost var placed := Admitted(cfg, cap, ops[..i]);
      assert ops[..i + 1] == ops[..i] + [op];
      FilterSnoc(cfg, cap, ops[..i], op);
      var maxGasLimit := BlockGas(cfg, op);
      if maxGasLimit > cap {
        skipped := skipped + [op];
        continue;
      }
      if batch.batchGasLimit + maxGasLimit > cap {
        StartBatch(cfg, cap, placed, batches, batch, op);
        batches := batches + [batch];
        batch := Batch(0, []);
      } else {
        ExtendBatch(cfg, cap, placed, batches, batch, op);
      }
      batch := Batch(batch.batchGasLimit + maxGasLimit, batch.meeUserOps + [op]);
    }
    assert ops[..|ops|] == ops;
    if |batch.meeUserOps| > 0 {
      CloseBatch(cfg, cap, Admitted(cfg, cap, ops), batches, batch);
      batches := batches + [batch];
    }
    PackedByGas(cfg, cap, ops, batches);
  }

  // ----- Optimality -----

  lemma {:induction false} TotalGasConcat(cfg: GasConfig, a: seq<MeeUserOp>, b: seq<MeeUserOp>)
    ensures TotalGas(cfg, a + b) == TotalGas(cfg, a) + TotalGas(cfg, b)
  {
    if b == [] {
      assert a + b == a;
    } else {
      assert (a + b)[..|a + b| - 1] == a + b[..|b| - 1];
      TotalGasConcat(cfg, a, b[..|b| - 1]);
    }
  }

  /** A longer stretch takes at least as much gas. */
  lemma TotalGasMonotone(cfg: GasConfig, ops: seq<MeeUserOp>, a: nat, b: nat, c: nat, d: nat)
    requires a <= b <= c <= d <= |ops|
    ensures TotalGas(cfg, ops[b..c]) <= TotalGas(cfg, ops[a..d])
  {
    assert ops[a..d] == ops[a..b] + (ops[b..c] + ops[c..d]);
    TotalGasConcat(cfg, ops[a..b], ops[b..c] + ops[c..d]);
    TotalGasConcat(cfg, ops[b..c], ops[c..d]);
  }

  function End(parts: seq<seq<MeeUserOp>>, i: nat): nat
    requires i <= |parts|
  {
    |Concat(parts[..i])|
  }

  /** Part i is the stretch between the ends of its neighbours. */
  lemma {:induction false} PartIsStretch(parts: seq<seq<MeeUserOp>>, i: nat)
    requires i < |parts|
    ensures End(parts, i) + |parts[i]| == End(parts, i + 1) <= |Concat(parts)|
    ensures parts[i] == Concat(parts)[End(parts, i)..End(parts, i + 1)]
    decreases |parts|
  {
    var front := parts[..|parts| - 1];
    assert parts[..i + 1][..i] == parts[..i];
    if i == |parts| - 1 {
      assert parts[..i + 1] == parts;
    } else {
      assert front[..i] == parts[..i] && front[..i + 1] == parts[..i + 1];
      PartIsStretch(front, i);
    }
  }

  /** One part further: where the next-fit packing stops, the other split cannot go on. */
  lemma NextFitReachesAsFar(
      cfg: GasConfig, cap: nat, ops: seq<MeeUserOp>,
      greedy: seq<seq<MeeUserOp>>, i: nat, from: nat, to: nat)
    requires IsNextFitSplit(cfg, cap, ops, greedy) && i < |greedy|
    requires from <= End(greedy, i) && from <= to <= |ops| && TotalGas(cfg, ops[from..to]) <= cap
    ensures to <= End(greedy, i + 1)
  {
    PartIsStretch(greedy, i);
    var g, g' := End(greedy, i), End(greedy, i + 1);
    if i + 1 == |greedy| {
      assert greedy[..i + 1] == greedy;
    } else if g' < to {
      assert Overflows(cfg, cap, greedy, i + 1);
      PartIsStretch(greedy, i + 1);
      assert greedy[i + 1][0] == ops[g'];
      assert ops[g..g' + 1] == greedy[i] + [ops[g']];
      TotalGasSnoc(cfg, greedy[i], ops[g']);
      TotalGasMonotone(cfg, ops, from, g, g' + 1, to);
    }
  }

  /** After as many parts, the next-fit packing has placed at least as many operations. */
  lemma {:induction false} NextFitStaysAhead(
      cfg: GasConfig, cap: nat, ops: seq<MeeUserOp>,
      greedy: seq<seq<MeeUserOp>>, other: seq<seq<MeeUserOp>>, i: nat)
    requires IsNextFitSplit(cfg, cap, ops, greedy) && IsSplit(cfg, cap, ops, other)
    requires i <= |greedy| && i <= |other|
    ensures End(other, i) <= End(greedy, i)
  {
    if i == 0 {
    } else {
      NextFitStaysAhead(cfg, cap, ops, greedy, other, i - 1);
      PartIsStretch(other, i - 1);
      NextFitReachesAsFar(cfg, cap, ops, greedy, i - 1, End(other, i - 1), End(other, i));
    }
  }

  /** No split that keeps the order uses fewer batches. */
  lemma NextFitUsesFewestBatches(
      cfg: GasConfig, cap: nat, ops: seq<MeeUserOp>, batches: seq<Batch>, other: seq<seq<MeeUserOp>>)
    requires IsNextFit(cfg, cap, ops, batches) && IsSplit(cfg, cap, ops, other)
    ensures |batches| <= |other|
  {
    var greedy := Contents(batches);
    if |other| < |greedy| {
      NextFitStaysAhead(cfg, cap, ops, greedy, other, |other|);
      assert other[..|other|] == other;
      PartIsStretch(greedy, |other|);
      assert false;
    }
  }

  /** The gas of the operations that the assignment `bin` puts in bin b. */
  function BinGas(cfg: GasConfig, ops: seq<MeeUserOp>, bin: seq<nat>, b: nat): nat
    requires |bin| == |ops|
  {
    if ops == [] then 0
    else
      var n := |ops| - 1;
      BinGas(cfg, ops[..n], bin[..n], b) + if bin[n] == b then BlockGas(cfg, ops[n]) else 0
  }

  /** Any assignment of the operations to k bins, in whatever order, with every bin within the cap. */
  ghost predicate IsPacking(cfg: GasConfig, cap: nat, ops: seq<MeeUserOp>, bin: seq<nat>, k: nat) {
    && |bin| == |ops|
    && (forall i :: 0 <= i < |bin| ==> bin[i] < k)
    && forall b: nat :: b < k ==> BinGas(cfg, ops, bin, b) <= cap
  }

  function AllBinsGas(cfg: GasConfig, ops: seq<MeeUserOp>, bin: seq<nat>, k: nat): nat
    requires |bin| == |ops|
  {
    if k == 0 then 0 else AllBinsGas(cfg, ops, bin, k - 1) + BinGas(cfg, ops, bin, k - 1)
  }

  lemma {:induction false} AllBinsSnoc(cfg: GasConfig, ops: seq<MeeUserOp>, bin: seq<nat>, k: nat)
    requires |bin| == |ops| > 0
    ensures AllBinsGas(cfg, ops, bin, k) ==
            AllBinsGas(cfg, ops[..|ops| - 1], bin[..|ops| - 1], k)
            + if bin[|ops| - 1] < k then BlockGas(cfg, ops[|ops| - 1]) else 0
  {
    if k > 0 {
      AllBinsSnoc(cfg, ops, bin, k - 1);
    }
  }

  lemma {:induction false} BinsHoldEverything(cfg: GasConfig, ops: seq<MeeUserOp>, bin: seq<nat>, k: nat)
    requires |bin| == |ops| && forall i :: 0 <= i < |bin| ==> bin[i] < k
    ensures AllBinsGas(cfg, ops, bin, k) == TotalGas(cfg, ops)
  {
    if ops == [] {
      EmptyBins(cfg, k);
      assert bin == [];
    } else {
      AllBinsSnoc(cfg, ops, bin, k);
      BinsHoldEverything(cfg, ops[..|ops| - 1], bin[..|ops| - 1], k);
    }
  }

  lemma {:induction false} EmptyBins(cfg: GasConfig, k: nat)
    ensures AllBinsGas(cfg, [], [], k) == 0
  {
    if k > 0 {
      EmptyBins(cfg, k - 1);
    }
  }

  lemma {:induction false} BinsWithinCap(cfg: GasConfig, cap: nat, ops: seq<MeeUserOp>, bin: seq<nat>, k: nat)
    requires |bin| == |ops|
    requires forall b: nat :: b < k ==> BinGas(cfg, ops, bin, b) <= cap
    ensures AllBinsGas(cfg, ops, bin, k) <= k * cap
  {
    if k == 0 {
    } else {
      BinsWithinCap(cfg, cap, ops, bin, k - 1);
      assert k * cap == (k - 1) * cap + cap;
    }
  }

  /** Two neighbouring batches together exceed the cap, so every pair of them accounts for more than one cap. */
  lemma {:induction false} PairsExceedCap(cfg: GasConfig, cap: nat, ops: seq<MeeUserOp>, parts: seq<seq<MeeUserOp>>, m: nat)
    requires IsNextFitSplit(cfg, cap, ops, parts) && 2 * m <= |parts|
    ensures TotalGas(cfg, Concat(parts[..2 * m])) >= m * cap + m
  {
    if m == 0 {
    } else {
      PairsExceedCap(cfg, cap, ops, parts, m - 1);
      PairExceedsCap(cfg, cap, ops, parts, 2 * m - 1);
      OnePairMore(cfg, cap, parts, m);
    }
  }

  lemma OnePairMore(cfg: GasConfig, cap: nat, parts: seq<seq<MeeUserOp>>, m: nat)
    requires 0 < m && 2 * m <= |parts|
    requires TotalGas(cfg, Concat(parts[..2 * (m - 1)])) >= (m - 1) * cap + (m - 1)
    requires TotalGas(cfg, parts[2 * m - 1 - 1]) + TotalGas(cfg, parts[2 * m - 1]) > cap
    ensures TotalGas(cfg, Concat(parts[..2 * m])) >= m * cap + m
  {
    assert parts[..2 * m] == parts[..2 * (m - 1)] + [parts[2 * m - 1 - 1]] + [parts[2 * m - 1]];
    ConcatPair(cfg, parts[..2 * (m - 1)], parts[2 * m - 1 - 1], parts[2 * m - 1]);
    assert m * cap == (m - 1) * cap + cap;
  }

  lemma ConcatPair(cfg: GasConfig, before: seq<seq<MeeUserOp>>, a: seq<MeeUserOp>, b: seq<MeeUserOp>)
    ensures TotalGas(cfg, Concat(before + [a] + [b])) ==
            TotalGas(cfg, Concat(before)) + TotalGas(cfg, a) + TotalGas(cfg, b)
  {
    ConcatSnoc(before, a);
    ConcatSnoc(before + [a], b);
    TotalGasConcat(cfg, Concat(before), a);
    TotalGasConcat(cfg, Concat(before) + a, b);
  }

  lemma PairExceedsCap(cfg: GasConfig, cap: nat, ops: seq<MeeUserOp>, parts: seq<seq<MeeUserOp>>, i: nat)
    requires IsNextFitSplit(cfg, cap, ops, parts) && 0 < i < |parts|
    ensures TotalGas(cfg, parts[i - 1]) + TotalGas(cfg, parts[i]) > cap
  {
    assert Overflows(cfg, cap, parts, i);
    var part := parts[i];
    assert part == ([] + [part[0]]) + part[1..];
    TotalGasConcat(cfg, [] + [part[0]], part[1..]);
    TotalGasSnoc(cfg, [], part[0]);
  }

  lemma PrefixGas(cfg: GasConfig, parts: seq<seq<MeeUserOp>>, i: nat)
    requires i <= |parts|
    ensures TotalGas(cfg, Concat(parts[..i])) <= TotalGas(cfg, Concat(parts))
    decreases |parts| - i
  {
    if i == |parts| {
      assert parts[..i] == parts;
    } else {
      PrefixGas(cfg, parts, i + 1);
      assert parts[..i + 1] == parts[..i] + [parts[i]];
      ConcatSnoc(parts[..i], parts[i]);
      TotalGasConcat(cfg, Concat(parts[..i]), parts[i]);
    }
  }

  /** m caps and more cannot be spread over m bins. */
  lemma PigeonHole(m: nat, k: nat, cap: nat, total: nat)
    requires m * cap + m <= total <= k * cap && 0 < k
    ensures m < k
  {
    assert m >= k ==> (m - k) * cap >= 0;
  }

  /** Against any packing at all, order or no order, next fit uses at most 2k - 1 batches where the other uses k. */
  lemma NextFitAtMostTwiceOptimal(
      cfg: GasConfig, cap: nat, ops: seq<MeeUserOp>, batches: seq<Batch>, bin: seq<nat>, k: nat)
    requires IsNextFit(cfg, cap, ops, batches) && IsPacking(cfg, cap, ops, bin, k)
    requires ops != []
    ensures |batches| <= 2 * k - 1
  {
    var parts := Contents(batches);
    var m := |parts| / 2;
    PairsExceedCap(cfg, cap, ops, parts, m);
    PrefixGas(cfg, parts, 2 * m);
    BinsHoldEverything(cfg, ops, bin, k);
    BinsWithinCap(cfg, cap, ops, bin, k);
    assert bin[0] < k;
    PigeonHole(m, k, cap, TotalGas(cfg, ops));
  }

  /** The admitted operations are those that a block can hold, the skipped ones the others. */
  lemma {:induction false} PackingSortsByGas(cfg: GasConfig, cap: nat, ops: seq<MeeUserOp>)
    ensures forall op :: op in Admitted(cfg, cap, ops) <==> op in ops && IsWithin(cfg, cap, op)
    ensures forall op :: op in Oversized(cfg, cap, ops) <==> op in ops && !IsWithin(cfg, cap, op)
  {
    if ops == [] {
    } else {
      var front, last := ops[..|ops| - 1], ops[|ops| - 1];
      assert ops == front + [last];
      PackingSortsByGas(cfg, cap, front);
    }
  }

  /** Counted with repetitions, the admitted and the skipped operations are together the completed simulations. */
  lemma {:induction false} PackingLosesNothing(cfg: GasConfig, cap: nat, ops: seq<MeeUserOp>)
    ensures multiset(Admitted(cfg, cap, ops)) + multiset(Oversized(cfg, cap, ops)) == multiset(ops)
  {
    if ops == [] {
    } else {
      var front, last := ops[..|ops| - 1], ops[|ops| - 1];
      assert ops == front + [last];
      assert multiset(front + [last]) == multiset(front) + multiset{last};
      PackingLosesNothing(cfg, cap, front);
    }
  }
}
