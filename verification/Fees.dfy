/**
 * The fees of a block's transaction: the quote, the bump before the immediate retry, the merge with
 * the earlier fees, and the chain's floor. EIP-1559 requires a priority fee of at most the maximal fee.
 */
module Fees {
  import opened GasPrices
  import opened UserOps
  import E = Attempts

  datatype Fees = Fees(maxFee: nat, maxPriorityFee: nat)

  predicate IsValid(f: Fees) {
    f.maxPriorityFee <= f.maxFee
  }

  // ----- Quoting -----

  function Multiplier(mode: Mode): nat {
    match mode
    case Standard => 1
    case Fast => 2
    case Rapid => 3
  }

  const DEFAULT_PRIORITY_FEE := 1_000_000_000

  function Positive(rewards: seq<nat>): (positive: seq<nat>)
    ensures forall r :: r in positive ==> r in rewards && r > 0
  {
    if rewards == [] then []
    else Positive(rewards[..|rewards| - 1]) + if rewards[|rewards| - 1] > 0 then [rewards[|rewards| - 1]] else []
  }

  /** The median of the positive rewards of recent blocks. */
  function MedianReward(rewards: seq<nat>, mode: Mode): nat {
    var positive := Positive(rewards);
    if positive == [] then (if mode.Standard? then 0 else DEFAULT_PRIORITY_FEE) else Median(positive)
  }

  function PriorityFee(rewards: seq<nat>, rpcPriorityFee: nat, mode: Mode): nat {
    var median := MedianReward(rewards, mode);
    if mode.Standard? || rpcPriorityFee == 0 || median == 0 then median else Smoothed(median, rpcPriorityFee)
  }

  /** How full the last blocks were. */
  datatype Congestion = Low | High | Full

  function Raised(fee: nat, mode: Mode, congestion: Congestion): nat {
    if mode.Standard? || congestion.Low? then fee
    else if congestion.Full? then fee * 15 / 10
    else fee * 12 / 10
  }

  function Quoted(baseFee: nat, rewards: seq<nat>, rpcPriorityFee: nat, mode: Mode, congestion: Congestion): Fees {
    var priority := Raised(PriorityFee(rewards, rpcPriorityFee, mode), mode, congestion);
    Fees(baseFee * Multiplier(mode) + priority, priority)
  }

  /** On a legacy chain the floored gas price serves as both fees. */
  function QuotedLegacy(gasPrice: nat, minGas: nat): Fees {
    var price := if minGas > 0 && gasPrice < minGas then minGas else gasPrice;
    Fees(price, price)
  }

  lemma {:induction false} PositiveIsFilter(rewards: seq<nat>, r: nat)
    ensures multiset(Positive(rewards))[r] == if r > 0 then multiset(rewards)[r] else 0
  {
    if rewards != [] {
      var n := |rewards| - 1;
      PositiveIsFilter(rewards[..n], r);
      assert rewards == rewards[..n] + [rewards[n]];
    }
  }

  /** What the priority fee of a quote is before congestion raises it. */
  predicate IsPriorityFee(rewards: seq<nat>, rpcPriorityFee: nat, mode: Mode, fee: nat) {
    && (Positive(rewards) == [] && mode.Standard? ==> fee == 0)
    && (Positive(rewards) == [] && !mode.Standard? && rpcPriorityFee == 0 ==> fee == 1_000_000_000)
    && (Positive(rewards) == [] && !mode.Standard? && rpcPriorityFee > 0 ==> fee == Smoothed(1_000_000_000, rpcPriorityFee))
    && (Positive(rewards) != [] && (mode.Standard? || rpcPriorityFee == 0) ==> fee == Median(Positive(rewards)))
    && (Positive(rewards) != [] && !mode.Standard? && rpcPriorityFee > 0 && Median(Positive(rewards)) > 0 ==>
          fee == Smoothed(Median(Positive(rewards)), rpcPriorityFee))
  }

  /**
   * A quote by its inputs: the priority fee, raised by half when the last blocks were full and by a
   * fifth when they were nearly so, and on top of it the base fee once, twice or three times.
   */
  lemma {:induction false} QuotedCases(
      baseFee: nat, rewards: seq<nat>, rpcPriorityFee: nat, mode: Mode, congestion: Congestion) returns (fee: nat)
    ensures IsPriorityFee(rewards, rpcPriorityFee, mode, fee)
    ensures var q := Quoted(baseFee, rewards, rpcPriorityFee, mode, congestion);
            && (mode.Standard? ==> q == Fees(baseFee + fee, fee))
            && (mode.Fast? ==> q.maxFee == q.maxPriorityFee + 2 * baseFee)
            && (mode.Rapid? ==> q.maxFee == q.maxPriorityFee + 3 * baseFee)
            && (!mode.Standard? && congestion.Low? ==> q.maxPriorityFee == fee)
            && (!mode.Standard? && congestion.High? ==> IsWholePart(q.maxPriorityFee, 12 * fee, 10))
            && (!mode.Standard? && congestion.Full? ==> IsWholePart(q.maxPriorityFee, 15 * fee, 10))
  {
    hide Median, Smoothed, Positive;
    fee := PriorityFee(rewards, rpcPriorityFee, mode);
  }

  /** The quote of a legacy chain, or of a chain with a base fee; either way it is valid. */
  method GetCurrentGasConditions(
      eip1559: bool, gasPrice: nat, minGas: nat,
      baseFee: nat, rewards: seq<nat>, rpcMaxPriorityFee: nat, mode: Mode, congestion: Congestion) returns (f: Fees)
    ensures f == if eip1559 then Quoted(baseFee, rewards, rpcMaxPriorityFee, mode, congestion)
                 else QuotedLegacy(gasPrice, minGas)
    ensures IsValid(f)
    ensures !eip1559 ==>
              && f.maxFee == f.maxPriorityFee >= minGas && f.maxFee >= gasPrice
              && (f.maxFee == gasPrice || f.maxFee == minGas)
  {
    hide Median, Smoothed, Positive;
    if !eip1559 {
      var effectiveGasPrice := gasPrice;
      if minGas > 0 && effectiveGasPrice < minGas {
        effectiveGasPrice := minGas;
      }
      return Fees(effectiveGasPrice, effectiveGasPrice);
    }
    ghost var priority := PriorityFee(rewards, rpcMaxPriorityFee, mode);
    var priorityFees := Positive(rewards);
    var medianPriorityFee := if !mode.Standard? then DEFAULT_PRIORITY_FEE else 0;
    if |priorityFees| > 0 {
      medianPriorityFee := Median(priorityFees);
    }
    var maxPriorityFeePerGas := medianPriorityFee;
    if !mode.Standard? {
      if rpcMaxPriorityFee > 0 && medianPriorityFee > 0 {
        maxPriorityFeePerGas := Smooth(medianPriorityFee, rpcMaxPriorityFee);
      }
      assert maxPriorityFeePerGas == priority;
      if congestion.Full? {
        maxPriorityFeePerGas := maxPriorityFeePerGas * 15 / 10;
      } else if congestion.High? {
        maxPriorityFeePerGas := maxPriorityFeePerGas * 12 / 10;
      }
    }
    assert maxPriorityFeePerGas == Raised(priority, mode, congestion);
    hide Raised, PriorityFee;
    var multiplier := 1;
    if mode.Fast? {
      multiplier := 2;
    }
    if mode.Rapid? {
      multiplier := 3;
    }
    f := Fees(baseFee * multiplier + maxPriorityFeePerGas, maxPriorityFeePerGas);
  }

  /** The smoothed priority fee keeps the same bounds as the smoothed gas price. */
  lemma {:induction false} PriorityFeeBounds(rewards: seq<nat>, rpcPriorityFee: nat, mode: Mode)
    ensures var m, fee := MedianReward(rewards, mode), PriorityFee(rewards, rpcPriorityFee, mode);
            && m <= fee <= (if rpcPriorityFee > m then rpcPriorityFee else m)
            && (m > 0 ==> 100 * fee < 501 * m)
  {
    hide Smoothed, Median;
    var m := MedianReward(rewards, mode);
    if m > 0 {
      SmoothedBounds(m, rpcPriorityFee);
    }
  }

  // ----- Retrying and submitting -----

  /** A percentage on top, rounded down. */
  function BumpFee(fee: nat, percentage: nat): nat {
    fee * (100 + percentage) / 100
  }

  /** Each attempt adds 20 percent, and replacing a transaction 50 more. */
  function BumpPercentage(attempts: nat, error: E.ErrorType): nat {
    (if attempts == 0 then 1 else attempts) * 20
    + if error.REPLACEMENT_TRANSACTION_GAS_PRICE_TOO_LOW? then 50 else 0
  }

  /** 20 percent for each attempt made, at least one, and 50 more to replace a transaction, rounded down. */
  lemma {:induction false} BumpIs(fee: nat, attempts: nat, error: E.ErrorType)
    ensures var tries := if attempts > 1 then attempts else 1;
            var extra := if error == E.REPLACEMENT_TRANSACTION_GAS_PRICE_TOO_LOW then 50 else 0;
            IsWholePart(BumpFee(fee, BumpPercentage(attempts, error)), fee * (100 + 20 * tries + extra), 100)
  {
    hide BumpFee;
    WholeBump(fee, BumpPercentage(attempts, error));
  }

  lemma WholeBump(fee: nat, percentage: nat)
    ensures IsWholePart(BumpFee(fee, percentage), fee * (100 + percentage), 100)
  {
  }

  /** The errors after which fees are quoted anew; after others the options stay as they are. */
  predicate IsRequoted(error: E.ErrorType) {
    || error.REPLACEMENT_TRANSACTION_GAS_PRICE_TOO_LOW? || error.GAS_PRICE_TOO_LOW? || error.MAX_FEE_TOO_LOW?
    || error.PRIORITY_FEE_TOO_HIGH? || error.NONCE_EXPIRED?
  }

  lemma RequotedErrors(error: E.ErrorType)
    ensures IsRequoted(error) <==>
            && error != E.EXECUTION_FAILED && error != E.UNRECOGNIZED_ERROR && error != E.TRANSACTION_RECEIPT_TIMEOUT_ERROR
            && error != E.BLOCK_GAS_LIMIT_EXCEEDS_ERROR && error != E.TRANSACTION_EXECUTION_SYNC_ERROR
  {
  }

  function Adjusted(earlier: Fees, quote: Fees, attempts: nat, error: E.ErrorType): Fees {
    if IsRequoted(error) then
      var percentage := BumpPercentage(attempts, error);
      Fees(BumpFee(quote.maxFee, percentage), BumpFee(quote.maxPriorityFee, percentage))
    else earlier
  }

  /** A fee of 0 counts as missing, and the earlier one is used in its place. */
  function Merged(earlier: Fees, adjusted: Fees): Fees {
    Fees(if adjusted.maxFee != 0 then adjusted.maxFee else earlier.maxFee,
         if adjusted.maxPriorityFee != 0 then adjusted.maxPriorityFee else earlier.maxPriorityFee)
  }

  function Floored(f: Fees, minGas: nat): Fees {
    Fees(if f.maxFee < minGas then minGas else f.maxFee, if f.maxPriorityFee < minGas then minGas else f.maxPriorityFee)
  }

  method ApplyFloor(f: Fees, minGas: nat) returns (submitted: Fees)
    ensures submitted == Floored(f, minGas)
  {
    var maxFeePerGas, maxPriorityFeePerGas := f.maxFee, f.maxPriorityFee;
    if minGas > 0 {
      if maxFeePerGas < minGas {
        maxFeePerGas := minGas;
      }
      if maxPriorityFeePerGas < minGas {
        maxPriorityFeePerGas := minGas;
      }
    }
    submitted := Fees(maxFeePerGas, maxPriorityFeePerGas);
  }

  /** Each fee is the higher of what it was and the chain's minimum. */
  predicate IsFloored(f: Fees, minGas: nat, floored: Fees) {
    && floored.maxFee >= f.maxFee && floored.maxFee >= minGas && floored.maxFee in {f.maxFee, minGas}
    && floored.maxPriorityFee >= f.maxPriorityFee && floored.maxPriorityFee >= minGas
    && floored.maxPriorityFee in {f.maxPriorityFee, minGas}
  }

  /** The first submission and, after a retriable error, the second. */
  method SubmittedFees(quote: Fees, requote: Fees, attempts: nat, error: E.ErrorType, minGas: nat)
    returns (first: Fees, second: Fees)
    ensures first == Floored(quote, minGas)
    ensures second == Floored(Merged(quote, Adjusted(quote, requote, attempts, error)), minGas)
    ensures IsFloored(quote, minGas, first)
    ensures IsValid(quote) ==> IsValid(first)
    ensures !IsRequoted(error) ==> second == first
    ensures IsRequoted(error) && requote.maxFee > 0 && requote.maxPriorityFee > 0 ==>
              var percentage := BumpPercentage(attempts, error);
              var bumped := Fees(BumpFee(requote.maxFee, percentage), BumpFee(requote.maxPriorityFee, percentage));
              IsFloored(bumped, minGas, second)
    ensures IsRequoted(error) && requote == Fees(0, 0) ==> second == first
    ensures IsRequoted(error) && IsValid(quote) && IsValid(requote) ==>
              (IsValid(second) <==> RetryFits(quote, requote, attempts, error, minGas))
  {
    if IsRequoted(error) && IsValid(quote) && IsValid(requote) {
      RetryIsValidIff(quote, requote, attempts, error, minGas);
    }
    BumpIsMonotone(requote.maxFee, requote.maxFee, BumpPercentage(attempts, error));
    BumpIsMonotone(requote.maxPriorityFee, requote.maxPriorityFee, BumpPercentage(attempts, error));
    BumpOfZero(BumpPercentage(attempts, error));
    hide RetryFits, BumpFee, BumpPercentage;
    var executionOptions := quote;
    first := ApplyFloor(executionOptions, minGas);
    var adjusted := Adjusted(executionOptions, requote, attempts, error);
    executionOptions := Fees(
      if adjusted.maxFee != 0 then adjusted.maxFee else executionOptions.maxFee,
      if adjusted.maxPriorityFee != 0 then adjusted.maxPriorityFee else executionOptions.maxPriorityFee);
    second := ApplyFloor(executionOptions, minGas);
  }

  lemma {:induction false} BumpIsMonotone(a: nat, b: nat, percentage: nat)
    requires a <= b
    ensures a <= BumpFee(a, percentage) <= BumpFee(b, percentage)
  {
    assert a * (100 + percentage) <= b * (100 + percentage);
    assert a * (100 + percentage) >= a * 100;
    DivideOrdered(a * 100, a * (100 + percentage));
    DivideOrdered(a * (100 + percentage), b * (100 + percentage));
  }

  lemma DivideOrdered(a: nat, b: nat)
    requires a <= b
    ensures a / 100 <= b / 100
  {
  }

  /**
   * The requoted priority fee is not zero, or there is no new maximal fee either, or the earlier
   * priority fee fits under the new maximal fee or under the floor.
   */
  predicate RetryFits(quote: Fees, requote: Fees, attempts: nat, error: E.ErrorType, minGas: nat) {
    || requote.maxPriorityFee != 0
    || requote.maxFee == 0
    || quote.maxPriorityFee <= BumpFee(requote.maxFee, BumpPercentage(attempts, error))
    || quote.maxPriorityFee <= minGas
  }

  /** Exactly when the retry after a requote is valid. */
  lemma {:induction false} RetryIsValidIff(quote: Fees, requote: Fees, attempts: nat, error: E.ErrorType, minGas: nat)
    requires IsValid(quote) && IsValid(requote) && IsRequoted(error)
    ensures IsValid(Floored(Merged(quote, Adjusted(quote, requote, attempts, error)), minGas)) <==>
            RetryFits(quote, requote, attempts, error, minGas)
  {
    hide BumpFee, BumpPercentage;
    var percentage := BumpPercentage(attempts, error);
    BumpIsMonotone(requote.maxPriorityFee, requote.maxFee, percentage);
    BumpIsMonotone(requote.maxFee, requote.maxFee, percentage);
    BumpOfZero(percentage);
  }

  lemma BumpOfZero(percentage: nat)
    ensures BumpFee(0, percentage) == 0
  {
  }

  /** A requote with priority fee 0 lets the retry mix an old priority fee with a lower new maximal fee. */
  lemma ZeroPriorityMixes(minGas: nat) returns (quote: Fees, requote: Fees)
    requires minGas <= 10
    ensures IsValid(quote) && IsValid(requote)
    ensures !IsValid(Floored(Merged(quote, Adjusted(quote, requote, 0, E.GAS_PRICE_TOO_LOW)), minGas))
  {
    quote, requote := Fees(100, 50), Fees(10, 0);
    var percentage := BumpPercentage(0, E.GAS_PRICE_TOO_LOW);
    assert percentage == 20;
    assert BumpFee(requote.maxFee, percentage) == 12;
    RetryIsValidIff(quote, requote, 0, E.GAS_PRICE_TOO_LOW, minGas);
  }
}
