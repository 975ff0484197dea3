/** Unwinding a leveraged position: the ratio recurrence and the position that it stands for. */
module Unwinding {
  import opened LeverageMath

  const MAX_CYCLES := 20

  // ----- The position -----

  /** What may be withdrawn before the position can be liquidated. */
  function Excess(p: Position): real {
    p.collateral - p.debt / LIQ_THRESHOLD
  }

  /** Withdraw a fraction of the excess, swap it, and repay; without excess nothing can be withdrawn. */
  function Cycle(p: Position): Position {
    if Excess(p) <= 0.0 then p
    else
      var withdrawn := WITHDRAW_FRACTION * Excess(p);
      Position(p.collateral - withdrawn, p.debt - withdrawn * KEPT)
  }

  /**
   * One cycle by the position alone: of the collateral that is not needed to stay above the liquidation
   * threshold, a fifth is left, and the debt falls by what is withdrawn, less the swap fee.
   */
  lemma CycleLeavesFifth(p: Position)
    ensures var withdrawn := p.collateral - Cycle(p).collateral;
            && (0.825 * p.collateral <= p.debt ==> Cycle(p) == p)
            && (0.825 * p.collateral > p.debt ==>
                  && 5.0 * (0.825 * (p.collateral - withdrawn) - p.debt) == 0.825 * p.collateral - p.debt
                  && p.debt - Cycle(p).debt == 0.9995 * withdrawn)
  {
  }

  function Cycles(p: Position, n: nat): Position
    decreases n
  {
    if n == 0 then p else Cycles(Cycle(p), n - 1)
  }

  // ----- The ratio -----

  function ExcessFraction(r: real): real {
    1.0 - r / LIQ_THRESHOLD
  }

  function RepayFraction(r: real): real {
    WITHDRAW_FRACTION * ExcessFraction(r) * KEPT
  }

  function NextRatio(r: real): real
    requires r > 0.0
  {
    if ExcessFraction(r) <= 0.0 then r
    else (r - RepayFraction(r)) / (1.0 - WITHDRAW_FRACTION * ExcessFraction(r))
  }

  /** The debt is cleared in this cycle. */
  predicate Clears(r: real) {
    ExcessFraction(r) > 0.0 && r - RepayFraction(r) <= 0.0
  }

  /** The loop from its n-th iteration on. */
  function Count(r: real, n: nat): nat
    requires r > 0.0
    decreases MAX_CYCLES + 1 - n
  {
    if n > MAX_CYCLES then MAX_CYCLES
    else if Clears(r) then n
    else
      NextRatioIsPositive(r);
      Count(NextRatio(r), n + 1)
  }

  lemma NextRatioIsPositive(r: real)
    requires r > 0.0 && !Clears(r)
    ensures NextRatio(r) > 0.0
  {
    if ExcessFraction(r) > 0.0 {
      PositiveQuotient(r - RepayFraction(r), 1.0 - WITHDRAW_FRACTION * ExcessFraction(r));
    }
  }

  lemma PositiveQuotient(a: real, b: real)
    requires a > 0.0 && b > 0.0
    ensures a / b > 0.0
  {
  }

  /** A position with equity 1. */
  function Ratio(leverage: real): (r: real)
    requires leverage > 1.0
    ensures r > 0.0
  {
    PositiveQuotient(leverage - 1.0, leverage);
    (leverage - 1.0) / leverage
  }

  /** One iteration of the loop, by what it computes. */
  lemma CountStep(r: real, i: nat, excessFrac: real, repayFrac: real, next: real)
    requires r > 0.0 && i <= MAX_CYCLES
    requires excessFrac == 1.0 - r / LIQ_THRESHOLD && repayFrac == WITHDRAW_FRACTION * excessFrac * KEPT
    requires excessFrac > 0.0 ==> next == (r - repayFrac) / (1.0 - WITHDRAW_FRACTION * excessFrac)
    ensures excessFrac <= 0.0 ==> Count(r, i) == Count(r, i + 1)
    ensures excessFrac > 0.0 && r - repayFrac <= 0.0 ==> Count(r, i) == i
    ensures excessFrac > 0.0 && r - repayFrac > 0.0 ==> next > 0.0 && Count(r, i) == Count(next, i + 1)
  {
    if !Clears(r) {
      NextRatioIsPositive(r);
    }
  }

  lemma CountEnds(r: real)
    requires r > 0.0
    ensures Count(r, MAX_CYCLES + 1) == MAX_CYCLES
  {
  }

  method UnwindIterationsNeeded(leverage: real) returns (n: nat)
    ensures n == if leverage <= 1.0 then 0 else Count(Ratio(leverage), 1)
  {
    if leverage <= 1.0 {
      return 0;
    }
    hide Count, Ratio;
    var r := Ratio(leverage);
    for i := 1 to 21
      invariant r > 0.0 && Count(Ratio(leverage), 1) == Count(r, i)
    {
      var excessFrac := 1.0 - r / LIQ_THRESHOLD;
      if excessFrac <= 0.0 {
        CountStep(r, i, excessFrac, WITHDRAW_FRACTION * excessFrac * KEPT, 0.0);
        continue;
      }
      var repayFrac := WITHDRAW_FRACTION * excessFrac * KEPT;
      var newC := 1.0 - WITHDRAW_FRACTION * excessFrac;
      CountStep(r, i, excessFrac, repayFrac, (r - repayFrac) / newC);
      if r - repayFrac <= 0.0 {
        return i;
      }
      r := (r - repayFrac) / newC;
    }
    CountEnds(r);
    return 20;
  }

  // ----- The ratio refines the position -----

  predicate IsIndebted(p: Position) {
    p.collateral > 0.0 && p.debt > 0.0
  }

  function DebtRatio(p: Position): (r: real)
    requires IsIndebted(p)
    ensures r > 0.0
  {
    PositiveQuotient(p.debt, p.collateral);
    p.debt / p.collateral
  }

  /** One cycle of the ratio is one cycle of the position. */
  lemma CycleRefines(p: Position)
    requires IsIndebted(p)
    ensures var r := DebtRatio(p);
            && (Clears(r) <==> Cycle(p).debt <= 0.0)
            && (!Clears(r) ==> IsIndebted(Cycle(p)) && DebtRatio(Cycle(p)) == NextRatio(r))
  {
    var c, d := p.collateral, p.debt;
    var r, e := d / c, ExcessFraction(d / c);
    RatioOf(c, d, r);
    var newC, newD := 1.0 - WITHDRAW_FRACTION * e, r - RepayFraction(r);
    if e > 0.0 {
      Scaled(c, newC, newD);
      assert Cycle(p) == Position(c * newC, c * newD);
    }
  }

  lemma RatioOf(c: real, d: real, r: real)
    requires c > 0.0 && r == d / c
    ensures d == r * c
    ensures Excess(Position(c, d)) == c * ExcessFraction(r)
    ensures Excess(Position(c, d)) > 0.0 <==> ExcessFraction(r) > 0.0
    ensures ExcessFraction(r) > 0.0 ==>
              Cycle(Position(c, d)) ==
                Position(c * (1.0 - WITHDRAW_FRACTION * ExcessFraction(r)), c * (r - RepayFraction(r)))
  {
    var e := ExcessFraction(r);
    assert d == r * c;
    assert c * e == c - d / LIQ_THRESHOLD;
    assert c * e > 0.0 <==> e > 0.0;
    if e > 0.0 {
      assert WITHDRAW_FRACTION * (c * e) == c * (WITHDRAW_FRACTION * e);
      assert WITHDRAW_FRACTION * (c * e) * KEPT == c * RepayFraction(r);
    }
  }

  lemma Scaled(c: real, x: real, y: real)
    requires c > 0.0 && x > 0.0
    ensures c * x > 0.0
    ensures (c * y) / (c * x) == y / x
    ensures c * y <= 0.0 <==> y <= 0.0
  {
    assert (y / x) * x == y;
    assert (y / x) * (c * x) == c * y;
  }

  /** The count is the least number of cycles that clears the debt, or 20 if 19 cycles do not. */
  lemma {:induction false} CountIsLeast(p: Position, n: nat)
    requires IsIndebted(p) && 1 <= n <= MAX_CYCLES + 1
    ensures var m := Count(DebtRatio(p), n);
            && n - 1 <= m <= MAX_CYCLES
            && (forall j: nat :: n + j <= m ==> IsIndebted(Cycles(p, j)))
            && (m < MAX_CYCLES ==> Cycles(p, m - n + 1).debt <= 0.0)
    decreases MAX_CYCLES + 1 - n
  {
    hide Clears, NextRatio, Cycle, DebtRatio;
    CycleRefines(p);
    var r := DebtRatio(p);
    var m := Count(r, n);
    if n <= MAX_CYCLES && !Clears(r) {
      CountIsLeast(Cycle(p), n + 1);
      forall j: nat | n + j <= m ensures IsIndebted(Cycles(p, j)) {
        if j > 0 {
          assert Cycles(p, j) == Cycles(Cycle(p), j - 1);
        }
      }
    } else {
      assert Cycles(p, 1) == Cycles(Cycle(p), 0);
    }
  }

  /** For a position with equity 1: the number of cycles that are needed. */
  lemma UnwindIsLeast(leverage: real)
    requires leverage > 1.0
    ensures var p, m := Position(leverage, leverage - 1.0), Count(Ratio(leverage), 1);
            && 1 <= m <= 20
            && (forall j: nat :: j < m ==> Cycles(p, j).debt > 0.0)
            && (m < 20 ==> Cycles(p, m).debt <= 0.0)
  {
    var p, m := Position(leverage, leverage - 1.0), Count(Ratio(leverage), 1);
    CountIsLeast(p, 1);
    forall j: nat | j < m ensures Cycles(p, j).debt > 0.0 {
      assert 1 + j <= m;
      assert IsIndebted(Cycles(p, j));
    }
  }

  // ----- The ratio over cycles -----

  /** From below the liquidation threshold, the ratio falls with every cycle that does not clear the debt. */
  lemma {:induction false} RatioFalls(r: real)
    requires 0.0 < r < LIQ_THRESHOLD && !Clears(r)
    ensures 0.0 < NextRatio(r) < r
  {
    NextRatioIsPositive(r);
    var e := ExcessFraction(r);
    var x := WITHDRAW_FRACTION * e;
    assert e > 0.0;
    assert x * (KEPT - r) > 0.0;
    assert r - x * KEPT < r * (1.0 - x);
    QuotientBelow(r - x * KEPT, 1.0 - x, r);
  }

  lemma QuotientBelow(a: real, b: real, bound: real)
    requires b > 0.0 && a < bound * b
    ensures a / b < bound
  {
    var q := a / b;
    assert q * b == a;
    assert q >= bound ==> q * b >= bound * b;
  }

  lemma ClearsIsMonotone(r: real, r': real)
    requires 0.0 < r <= r' && Clears(r')
    ensures Clears(r)
  {
  }

  lemma NextRatioIsMonotone(r: real, r': real)
    requires 0.0 < r <= r' && !Clears(r) && !Clears(r')
    ensures NextRatio(r) <= NextRatio(r')
  {
    if r' >= LIQ_THRESHOLD {
      if r < LIQ_THRESHOLD {
        RatioFalls(r);
      }
    } else {
      var a, b := r - RepayFraction(r), 1.0 - WITHDRAW_FRACTION * ExcessFraction(r);
      var a', b' := r' - RepayFraction(r'), 1.0 - WITHDRAW_FRACTION * ExcessFraction(r');
      CrossProduct(r, r');
      QuotientsOrdered(a, b, a', b');
    }
  }

  /** Both sides are linear in the ratio, so their difference is a multiple of the ratios' difference. */
  lemma CrossProduct(r: real, r': real)
    requires 0.0 < r <= r' < LIQ_THRESHOLD
    ensures (r - RepayFraction(r)) * (1.0 - WITHDRAW_FRACTION * ExcessFraction(r')) <=
            (r' - RepayFraction(r')) * (1.0 - WITHDRAW_FRACTION * ExcessFraction(r))
  {
    var k := WITHDRAW_FRACTION / LIQ_THRESHOLD;
    assert r - RepayFraction(r) == r * (1.0 + k * KEPT) - WITHDRAW_FRACTION * KEPT;
    assert 1.0 - WITHDRAW_FRACTION * ExcessFraction(r) == (1.0 - WITHDRAW_FRACTION) + r * k;
    LinearForms(r, r', 1.0 + k * KEPT, WITHDRAW_FRACTION * KEPT, 1.0 - WITHDRAW_FRACTION, k);
  }

  lemma LinearForms(r: real, r': real, a: real, b: real, c: real, d: real)
    requires r <= r' && a >= 0.0 && b >= 0.0 && c >= 0.0 && d >= 0.0
    ensures (r * a - b) * (c + r' * d) <= (r' * a - b) * (c + r * d)
  {
    var left, right := (r * a - b) * (c + r' * d), (r' * a - b) * (c + r * d);
    assert right - left == (r' - r) * (a * c + b * d);
    assert a * c >= 0.0 && b * d >= 0.0;
    assert (r' - r) * (a * c + b * d) >= 0.0;
  }

  lemma QuotientsOrdered(a: real, b: real, a': real, b': real)
    requires b > 0.0 && b' > 0.0 && a * b' <= a' * b
    ensures a / b <= a' / b'
  {
    var q, q' := a / b, a' / b';
    assert q * b == a && q' * b' == a';
    assert (q' - q) * (b * b') == a' * b - a * b';
    assert b * b' > 0.0;
    assert q' - q < 0.0 ==> (q' - q) * (b * b') < 0.0;
  }

  lemma {:induction false} CountIsMonotone(r: real, r': real, n: nat)
    requires 0.0 < r <= r'
    ensures Count(r, n) <= Count(r', n)
    decreases MAX_CYCLES + 1 - n
  {
    hide Clears, NextRatio;
    CountAtLeast(r', n);
    if n <= MAX_CYCLES && !Clears(r) {
      if Clears(r') {
        ClearsIsMonotone(r, r');
      } else {
        NextRatioIsPositive(r);
        NextRatioIsPositive(r');
        NextRatioIsMonotone(r, r');
        CountIsMonotone(NextRatio(r), NextRatio(r'), n + 1);
      }
    }
  }

  lemma {:induction false} CountAtLeast(r: real, n: nat)
    requires r > 0.0
    ensures n <= MAX_CYCLES ==> n <= Count(r, n) <= MAX_CYCLES
    decreases MAX_CYCLES + 1 - n
  {
    hide Clears, NextRatio;
    if n <= MAX_CYCLES && !Clears(r) {
      NextRatioIsPositive(r);
      CountAtLeast(NextRatio(r), n + 1);
    }
  }

  /** More leverage never needs fewer cycles. */
  lemma {:induction false} MoreLeverageMoreCycles(leverage: real, leverage': real)
    requires 1.0 < leverage <= leverage'
    ensures Count(Ratio(leverage), 1) <= Count(Ratio(leverage'), 1)
  {
    QuotientsOrdered(leverage - 1.0, leverage, leverage' - 1.0, leverage');
    CountIsMonotone(Ratio(leverage), Ratio(leverage'), 1);
  }

  /** At the liquidation threshold or above nothing can be withdrawn, and the answer is 20. */
  lemma {:induction false} NoExcessNeverClears(r: real, n: nat)
    requires r >= LIQ_THRESHOLD && n <= MAX_CYCLES + 1
    ensures Count(r, n) == MAX_CYCLES
    decreases MAX_CYCLES + 1 - n
  {
    if n <= MAX_CYCLES {
      NoExcessNeverClears(r, n + 1);
    }
  }
}
