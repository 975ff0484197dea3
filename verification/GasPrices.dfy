/** Smoothing of fetched gas prices against their recent median. */
module GasPrices {
  import opened UserOps

  const MAX_HISTORY := 20

  datatype Mode = Standard | Fast | Rapid

  // ----- Median -----

  /** Array.sort with a numeric comparison. */
  function Insert(x: nat, sorted: seq<nat>): (result: seq<nat>)
    ensures |result| == |sorted| + 1
  {
    if sorted == [] || x <= sorted[0] then [x] + sorted else [sorted[0]] + Insert(x, sorted[1..])
  }

  function Sorted(prices: seq<nat>): (result: seq<nat>)
    ensures |result| == |prices|
  {
    if prices == [] then [] else Insert(prices[0], Sorted(prices[1..]))
  }

  function Median(prices: seq<nat>): nat
    requires prices != []
  {
    var sorted, mid := Sorted(prices), |prices| / 2;
    if |prices| % 2 == 0 then (sorted[mid - 1] + sorted[mid]) / 2 else sorted[mid]
  }

  function CountAtMost(prices: seq<nat>, bound: nat): nat {
    if prices == [] then 0 else (if prices[0] <= bound then 1 else 0) + CountAtMost(prices[1..], bound)
  }

  function CountAtLeast(prices: seq<nat>, bound: nat): nat {
    if prices == [] then 0 else (if prices[0] >= bound then 1 else 0) + CountAtLeast(prices[1..], bound)
  }

  ghost predicate NonDecreasing(prices: seq<nat>) {
    forall i, j :: 0 <= i < j < |prices| ==> prices[i] <= prices[j]
  }

  lemma {:induction false} InsertCounts(x: nat, sorted: seq<nat>, bound: nat)
    ensures CountAtMost(Insert(x, sorted), bound) == CountAtMost(sorted, bound) + if x <= bound then 1 else 0
    ensures CountAtLeast(Insert(x, sorted), bound) == CountAtLeast(sorted, bound) + if x >= bound then 1 else 0
  {
    if sorted == [] || x <= sorted[0] {
      assert ([x] + sorted)[1..] == sorted;
    } else {
      InsertCounts(x, sorted[1..], bound);
      assert ([sorted[0]] + Insert(x, sorted[1..]))[1..] == Insert(x, sorted[1..]);
    }
  }

  lemma {:induction false} SortKeepsCounts(prices: seq<nat>, bound: nat)
    ensures CountAtMost(Sorted(prices), bound) == CountAtMost(prices, bound)
    ensures CountAtLeast(Sorted(prices), bound) == CountAtLeast(prices, bound)
  {
    if prices != [] {
      SortKeepsCounts(prices[1..], bound);
      InsertCounts(prices[0], Sorted(prices[1..]), bound);
    }
  }

  lemma {:induction false} InsertKeepsOrder(x: nat, sorted: seq<nat>)
    requires NonDecreasing(sorted)
    ensures NonDecreasing(Insert(x, sorted))
    ensures forall i :: 0 <= i <= |sorted| ==> Insert(x, sorted)[i] >= if sorted == [] || x <= sorted[0] then x else sorted[0]
  {
    if sorted != [] && x > sorted[0] {
      InsertKeepsOrder(x, sorted[1..]);
    }
  }

  lemma {:induction false} SortedIsNonDecreasing(prices: seq<nat>)
    ensures NonDecreasing(Sorted(prices))
  {
    if prices != [] {
      SortedIsNonDecreasing(prices[1..]);
      InsertKeepsOrder(prices[0], Sorted(prices[1..]));
    }
  }

  /** In a sorted list, everything up to position i is at most a bound that is not below it, and symmetrically. */
  lemma {:induction false} CountsInOrder(sorted: seq<nat>, i: nat, bound: nat)
    requires NonDecreasing(sorted) && i < |sorted|
    ensures sorted[i] <= bound ==> CountAtMost(sorted, bound) >= i + 1
    ensures sorted[i] >= bound ==> CountAtLeast(sorted, bound) >= |sorted| - i
  {
    if i > 0 {
      CountsInOrder(sorted[1..], i - 1, bound);
    } else if |sorted| > 1 {
      CountsInOrder(sorted[1..], 0, bound);
    }
  }

  /** At least half of the prices are at most the median, and at least half are at least the median. */
  lemma {:induction false} MedianIsInTheMiddle(prices: seq<nat>)
    requires prices != []
    ensures 2 * CountAtMost(prices, Median(prices)) >= |prices|
    ensures 2 * CountAtLeast(prices, Median(prices)) >= |prices|
  {
    var sorted, mid, m := Sorted(prices), |prices| / 2, Median(prices);
    SortedIsNonDecreasing(prices);
    SortKeepsCounts(prices, m);
    CountsInOrder(sorted, mid, m);
    if |prices| % 2 == 0 {
      assert sorted[mid - 1] <= sorted[mid];
      CountsInOrder(sorted, mid - 1, m);
    }
  }

  /** The median of an even number of prices is the mean, rounded down, of the two in the middle. */
  lemma {:induction false} MedianOfEven(prices: seq<nat>) returns (lower: nat, upper: nat)
    requires prices != [] && |prices| % 2 == 0
    ensures 2 * CountAtMost(prices, lower) >= |prices| && 2 * CountAtLeast(prices, lower) > |prices|
    ensures 2 * CountAtLeast(prices, upper) >= |prices| && 2 * CountAtMost(prices, upper) > |prices|
    ensures lower <= upper && 2 * Median(prices) <= lower + upper <= 2 * Median(prices) + 1
  {
    var sorted, mid := Sorted(prices), |prices| / 2;
    lower, upper := sorted[mid - 1], sorted[mid];
    SortedIsNonDecreasing(prices);
    SortKeepsCounts(prices, lower);
    SortKeepsCounts(prices, upper);
    CountsInOrder(sorted, mid - 1, lower);
    CountsInOrder(sorted, mid, upper);
  }

  // ----- The spike rule -----

  /** A price within half to double of the median may raise it, one up to five times as high does so in part. */
  function Smoothed(median: nat, current: nat): nat
    requires median > 0
  {
    var ratio := current * 100 / median;
    if 200 < ratio < 500 then (median * 2 + current) / 3
    else if ratio > 500 then median
    else if ratio < 50 then median
    else if current > median then current else median
  }

  /** The smoothed price is never below the median, never above the higher of the two, and about five medians at most. */
  lemma {:induction false} SmoothedBounds(median: nat, current: nat)
    requires median > 0
    ensures median <= Smoothed(median, current) <= if current > median then current else median
    ensures 100 * Smoothed(median, current) < 501 * median
  {
    var ratio := current * 100 / median;
    RatioBounds(median, current);
    RatioOrder(median, current * 100, ratio);
    BoundsByRatio(median, current, ratio);
  }

  /** r is the whole part of a / b. */
  predicate IsWholePart(r: nat, a: nat, b: nat) {
    b * r <= a < b * r + b
  }

  /**
   * The spike rule by the prices themselves: at twice the median or more, but less than five times it
   * (in whole percents), a third of the way; from 501 percent on and below 50 the median; otherwise,
   * and so at five times the median, the higher of the two.
   */
  lemma {:induction false} SmoothedCases(median: nat, current: nat)
    requires median > 0
    ensures var e := Smoothed(median, current);
            && (201 * median <= 100 * current < 500 * median ==> IsWholePart(e, 2 * median + current, 3))
            && (501 * median <= 100 * current ==> e == median)
            && (100 * current < 50 * median ==> e == median)
            && (100 * current < 201 * median && median <= current ==> e == current)
            && (50 * median <= 100 * current && current < median ==> e == median)
            && (500 * median <= 100 * current < 501 * median ==> e == current)
  {
    var ratio := current * 100 / median;
    RatioBounds(median, current);
    RatioIs(median, current * 100, ratio, 50);
    RatioIs(median, current * 100, ratio, 201);
    RatioIs(median, current * 100, ratio, 500);
    RatioIs(median, current * 100, ratio, 501);
  }

  lemma RatioIs(median: nat, scaled: nat, ratio: nat, bound: nat)
    requires ratio * median <= scaled < (ratio + 1) * median
    ensures scaled >= bound * median <==> ratio >= bound
  {
    if ratio >= bound {
      TimesOrdered(bound, ratio, median);
    } else {
      TimesOrdered(ratio + 1, bound, median);
    }
  }

  lemma TimesOrdered(a: nat, b: nat, x: nat)
    requires a <= b
    ensures a * x <= b * x
  {
    assert (b - a) * x >= 0;
  }

  lemma RatioOrder(median: nat, scaled: nat, ratio: nat)
    requires ratio * median <= scaled < (ratio + 1) * median
    ensures ratio > 200 ==> scaled >= 201 * median
    ensures ratio < 500 ==> scaled < 500 * median
    ensures ratio <= 500 ==> scaled < 501 * median
  {
    if ratio > 200 {
      TimesOrdered(201, ratio, median);
    }
    if ratio < 500 {
      TimesOrdered(ratio + 1, 500, median);
    }
    if ratio <= 500 {
      TimesOrdered(ratio + 1, 501, median);
    }
  }

  lemma BoundsByRatio(median: nat, current: nat, ratio: nat)
    requires median > 0 && ratio == current * 100 / median
    requires ratio > 200 ==> current * 100 >= 201 * median
    requires ratio < 500 ==> current * 100 < 500 * median
    requires ratio <= 500 ==> current * 100 < 501 * median
    ensures median <= Smoothed(median, current) <= if current > median then current else median
    ensures 100 * Smoothed(median, current) < 501 * median
  {
    var mixed := (median * 2 + current) / 3;
    assert ratio > 200 ==> median <= mixed <= current;
  }

  lemma RatioBounds(median: nat, current: nat)
    requires median > 0
    ensures var ratio := current * 100 / median; ratio * median <= current * 100 < (ratio + 1) * median
  {
  }

  // ----- The price history -----

  function LastOf(prices: seq<nat>, count: nat): seq<nat> {
    if |prices| <= count then prices else prices[|prices| - count..]
  }

  function Buffer(mode: Mode): nat {
    match mode
    case Standard => 10
    case Fast => 50
    case Rapid => 70
  }

  function Buffered(price: nat, mode: Mode): nat {
    price * (100 + Buffer(mode)) / 100
  }

  /** 10, 50 or 70 percent on top, rounded down. */
  predicate HasBuffer(price: nat, mode: Mode, buffered: nat) {
    IsWholePart(buffered, (match mode case Standard => 110 case Fast => 150 case Rapid => 170) * price, 100)
  }

  /** The answer after the given prices were fetched; a median of 0 makes the division throw. */
  function GasPrice(fetched: seq<nat>, mode: Mode): Option<nat>
    requires fetched != []
  {
    var history, current := LastOf(fetched, MAX_HISTORY), fetched[|fetched| - 1];
    if |history| < 3 then Some(Buffered(current, mode))
    else if Median(history) == 0 then None
    else Some(Buffered(Smoothed(Median(history), current), mode))
  }

  class GasManager {
    var legacyGasPriceHistory: seq<nat>
    ghost var fetched: seq<nat>

    /** The history is the last prices fetched, 20 at most. */
    ghost predicate Valid()
      reads this
    {
      legacyGasPriceHistory == LastOf(fetched, MAX_HISTORY)
    }

    constructor ()
      ensures Valid() && fetched == []
    {
      legacyGasPriceHistory, fetched := [], [];
    }

    /** A fetch that fails leaves the history as it is. */
    method GetGasPrice(answer: Option<nat>, mode: Mode) returns (price: Option<nat>)
      requires Valid()
      modifies this
      ensures Valid()
      ensures answer.None? ==> price.None? && fetched == old(fetched)
      ensures answer.Some? ==> fetched == old(fetched) + [answer.value] && price == GasPrice(fetched, mode)
    {
      if answer.None? {
        return None;
      }
      var currentGasPrice := answer.value;
      legacyGasPriceHistory := legacyGasPriceHistory + [currentGasPrice];
      if |legacyGasPriceHistory| > MAX_HISTORY {
        legacyGasPriceHistory := legacyGasPriceHistory[1..];
      }
      fetched := fetched + [currentGasPrice];
      assert legacyGasPriceHistory == LastOf(fetched, MAX_HISTORY);
      var buffer := 10;
      if mode.Fast? {
        buffer := 50;
      }
      if mode.Rapid? {
        buffer := 70;
      }
      if |legacyGasPriceHistory| < 3 {
        return Some(currentGasPrice * (100 + buffer) / 100);
      }
      var medianGasPrice := Median(legacyGasPriceHistory);
      if medianGasPrice == 0 {
        return None;
      }
      var estimatedPrice := Smooth(medianGasPrice, currentGasPrice);
      return Some(estimatedPrice * (100 + buffer) / 100);
    }
  }

  method Smooth(median: nat, current: nat) returns (estimated: nat)
    requires median > 0
    ensures estimated == Smoothed(median, current)
  {
    var ratio := current * 100 / median;
    if ratio > 200 && ratio < 500 {
      estimated := (median * 2 + current) / 3;
    } else if ratio > 500 {
      estimated := median;
    } else if ratio < 50 {
      estimated := median;
    } else {
      estimated := if current > median then current else median;
    }
  }

  /**
   * Whatever was fetched before, once there are three prices the answer is the median or more, within
   * the buffer, and below the buffered price of about five medians.
   */
  lemma {:induction false} GasPriceBounds(fetched: seq<nat>, mode: Mode)
    requires |fetched| >= 3
    ensures var m, current := Median(LastOf(fetched, MAX_HISTORY)), fetched[|fetched| - 1];
            && (GasPrice(fetched, mode).None? <==> m == 0)
            && (m > 0 ==>
                  var price := GasPrice(fetched, mode).value;
                  && Buffered(m, mode) <= price <= Buffered(if current > m then current else m, mode)
                  && 100 * 100 * price < 501 * m * (100 + Buffer(mode)))
  {
    hide Median, Smoothed;
    var m, current := Median(LastOf(fetched, MAX_HISTORY)), fetched[|fetched| - 1];
    if m > 0 {
      SmoothedBounds(m, current);
      var e := Smoothed(m, current);
      BufferedIsMonotone(m, e, mode);
      BufferedIsMonotone(e, if current > m then current else m, mode);
      assert 100 * Buffered(e, mode) <= e * (100 + Buffer(mode));
      StrictlyScaled(100 * e, 501 * m, 100 + Buffer(mode));
    }
  }

  lemma BufferedIs(price: nat, mode: Mode)
    ensures HasBuffer(price, mode, Buffered(price, mode))
  {
  }

  /** The first two prices get the buffer alone, later ones are smoothed by the last 20 prices first. */
  lemma {:induction false} PriceCases(older: seq<nat>, history: seq<nat>, mode: Mode)
    requires history != [] && |history| <= 20 && (older != [] ==> |history| == 20)
    ensures var price, current := GasPrice(older + history, mode), history[|history| - 1];
            && (|history| < 3 ==> price.Some? && HasBuffer(current, mode, price.value))
            && (|history| >= 3 ==> (price.None? <==> Median(history) == 0))
            && (|history| >= 3 && price.Some? ==> HasBuffer(Smoothed(Median(history), current), mode, price.value))
  {
    hide Median, Smoothed, Buffered, HasBuffer;
    var current := history[|history| - 1];
    assert LastOf(older + history, MAX_HISTORY) == history;
    BufferedIs(current, mode);
    if Median(history) > 0 {
      BufferedIs(Smoothed(Median(history), current), mode);
    }
  }

  lemma BufferedIsMonotone(a: nat, b: nat, mode: Mode)
    requires a <= b
    ensures Buffered(a, mode) <= Buffered(b, mode)
  {
  }

  lemma StrictlyScaled(a: nat, b: nat, factor: nat)
    requires a < b && factor > 0
    ensures a * factor < b * factor
  {
  }
}
