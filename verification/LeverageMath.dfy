/**
 * The projections of leverage loops and unwinding. JavaScript numbers are modelled by reals.
 */
module LeverageMath {
  import opened UserOps

  const AAVE_WETH_LTV := 0.80
  const SWAP_FEE := 0.0005
  const BORROW_FRACTION := 0.80
  const LIQ_THRESHOLD := 0.825
  const WITHDRAW_FRACTION := 0.80

  /** What a swap leaves of a value. */
  const KEPT := 1.0 - SWAP_FEE

  /** What a borrowed value is worth as collateral for borrowing again. */
  const REBORROW := KEPT * AAVE_WETH_LTV

  /** What is left of the available borrows after one loop. */
  const Q := 1.0 - BORROW_FRACTION * (1.0 - REBORROW)

  function Power(x: real, n: nat): real {
    if n == 0 then 1.0 else x * Power(x, n - 1)
  }

  lemma {:induction false} PowerOfQ(n: nat)
    ensures 0.0 < Power(Q, n + 1) < Power(Q, n) <= 1.0
  {
    if n != 0 {
      PowerOfQ(n - 1);
    }
    assert Q * Power(Q, n) < Power(Q, n);
  }

  // ----- Building leverage -----

  datatype Position = Position(collateral: real, debt: real)

  function Available(p: Position): real {
    p.collateral * AAVE_WETH_LTV - p.debt
  }

  /** Borrow a fraction of what is available, swap it, and supply it. */
  function Loop(p: Position): Position {
    var borrowed := Available(p) * BORROW_FRACTION;
    Position(p.collateral + borrowed * KEPT, p.debt + borrowed)
  }

  function Loops(p: Position, n: nat): Position {
    if n == 0 then p else Loop(Loops(p, n - 1))
  }

  method LeverageAfterLoops(loops: int) returns (leverage: real)
    ensures leverage == Leverage(if loops < 0 then 0 else loops)
  {
    var collateral, debt := 1.0, 0.0;
    var i := 0;
    while i < loops
      invariant 0 <= i && (i <= loops || i == 0)
      invariant Position(collateral, debt) == Loops(Position(1.0, 0.0), i)
    {
      var availableBorrows := collateral * AAVE_WETH_LTV - debt;
      var borrowed := availableBorrows * BORROW_FRACTION;
      var wethReceived := borrowed * KEPT;
      collateral := collateral + wethReceived;
      debt := debt + borrowed;
      i := i + 1;
    }
    return collateral;
  }

  function Leverage(n: nat): real {
    Loops(Position(1.0, 0.0), n).collateral
  }

  lemma {:induction false} LoopsStep(p: Position, n: nat)
    ensures Loops(p, n) == if n == 0 then p else Loop(Loops(p, n - 1))
  {
  }

  /** Each loop leaves the same fraction of the available borrows. */
  lemma {:induction false} AvailableShrinks(p: Position, n: nat)
    ensures Available(Loops(p, n)) == Power(Q, n) * Available(p)
  {
    hide Loop, Available;
    if n != 0 {
      AvailableShrinks(p, n - 1);
      Associate(Q, Power(Q, n - 1), Available(p));
      LoopAvailable(Loops(p, n - 1));
    }
  }

  lemma LoopAvailable(p: Position)
    ensures Available(Loop(p)) == Q * Available(p)
  {
  }

  lemma Associate(x: real, y: real, z: real)
    ensures x * (y * z) == (x * y) * z
  {
  }

  /** What is invariant under loops: the available borrows turn into collateral, less fees. */
  function Invested(p: Position): real {
    (1.0 - REBORROW) * p.collateral + KEPT * Available(p)
  }

  lemma LoopConserves(p: Position)
    ensures Invested(Loop(p)) == Invested(p)
    ensures Loop(p).collateral - p.collateral == KEPT * (Loop(p).debt - p.debt)
  {
  }

  /** What a loop takes from the available borrows it adds, less fees, to the collateral. */
  lemma {:induction false} LoopsConserve(p: Position, n: nat)
    ensures Invested(Loops(p, n)) == Invested(p)
    ensures Loops(p, n).collateral - p.collateral == KEPT * (Loops(p, n).debt - p.debt)
  {
    hide Loop, Loops, Invested;
    LoopsStep(p, n);
    if n != 0 {
      LoopsConserve(p, n - 1);
      LoopConserves(Loops(p, n - 1));
    }
  }

  /** The leverage is a geometric sum: it grows with every loop, and stays below its limit. */
  lemma LeverageClosedForm(n: nat)
    ensures Leverage(n) == (1.0 - REBORROW * Power(Q, n)) / (1.0 - REBORROW)
    ensures Leverage(n) < Leverage(n + 1) < 1.0 / (1.0 - REBORROW)
  {
    LeverageScaled(n);
    LeverageScaled(n + 1);
    PowerOfQ(n);
    PowerOfQ(n + 1);
  }

  lemma LeverageScaled(n: nat)
    ensures (1.0 - REBORROW) * Leverage(n) == 1.0 - REBORROW * Power(Q, n)
  {
    LoopsConserve(Position(1.0, 0.0), n);
    AvailableShrinks(Position(1.0, 0.0), n);
  }

  // ----- From an existing position -----

  /** A health factor; None stands for infinity. */
  function HealthFactor(p: Position): Option<real> {
    if p.debt > 0.0 then Some(p.collateral * LIQ_THRESHOLD / p.debt) else None
  }

  method SimulateLoopsFromState(loops: int, newDeposit: real, existCollateral: real, existDebt: real)
    returns (projected: Position, health: Option<real>)
    ensures projected == FromState(if loops < 0 then 0 else loops, newDeposit, existCollateral, existDebt)
    ensures health == HealthFactor(projected)
  {
    var collUsd, debtUsd := existCollateral, existDebt;
    collUsd := collUsd + newDeposit;
    ghost var start := Position(collUsd, debtUsd);
    var i := 0;
    while i < loops
      invariant 0 <= i && (i <= loops || i == 0)
      invariant Position(collUsd, debtUsd) == if Available(start) <= 0.0 then start else Loops(start, i)
    {
      var availBorrowsUsd := collUsd * AAVE_WETH_LTV - debtUsd;
      StaysAvailable(start, i);
      if availBorrowsUsd <= 0.0 {
        break;
      }
      var borrowedUsd := availBorrowsUsd * BORROW_FRACTION;
      debtUsd := debtUsd + borrowedUsd;
      var wethReceivedUsd := borrowedUsd * KEPT;
      collUsd := collUsd + wethReceivedUsd;
      i := i + 1;
    }
    projected := Position(collUsd, debtUsd);
    health := HealthFactor(projected);
  }

  function FromState(loops: nat, newDeposit: real, existCollateral: real, existDebt: real): Position {
    var start := Position(existCollateral + newDeposit, existDebt);
    if Available(start) <= 0.0 then start else Loops(start, loops)
  }

  /**
   * From any position: what the loops add to the collateral is what they add to the debt, less fees,
   * and both are what the loops from an empty position make of the available borrows.
   */
  lemma {:induction false} FromStateClosedForm(loops: nat, newDeposit: real, existCollateral: real, existDebt: real)
    ensures var p := FromState(loops, newDeposit, existCollateral, existDebt);
            var collateral := existCollateral + newDeposit;
            var free := 0.8 * collateral - existDebt;
            && (free <= 0.0 ==> p == Position(collateral, existDebt))
            && (free > 0.0 ==>
                  && p.collateral - collateral == 0.9995 * (p.debt - existDebt)
                  && 0.2004 * (p.collateral - collateral) == 0.9995 * (free - Power(Q, loops) * free)
                  && 0.8 * p.collateral - p.debt == Power(Q, loops) * free)
  {
    hide Loops, Power;
    var start := Position(existCollateral + newDeposit, existDebt);
    LoopsConserve(start, loops);
    AvailableShrinks(start, loops);
  }

  lemma StaysAvailable(p: Position, n: nat)
    ensures Available(p) > 0.0 <==> Available(Loops(p, n)) > 0.0
  {
    AvailableShrinks(p, n);
    PowerOfQ(n);
    var x, a := Power(Q, n), Available(p);
    assert a > 0.0 ==> x * a > 0.0;
    assert a <= 0.0 ==> x * a <= 0.0;
  }

  /** Below the maximal loan-to-value before is below it after, and only then; the health factor then has a floor. */
  lemma StaysBelowLtv(loops: nat, newDeposit: real, existCollateral: real, existDebt: real)
    ensures var p := FromState(loops, newDeposit, existCollateral, existDebt);
            && (p.debt < AAVE_WETH_LTV * p.collateral <==> existDebt < AAVE_WETH_LTV * (existCollateral + newDeposit))
            && (p.debt < AAVE_WETH_LTV * p.collateral && p.debt > 0.0 ==>
                  HealthFactor(p).value > LIQ_THRESHOLD / AAVE_WETH_LTV)
  {
    var p := FromState(loops, newDeposit, existCollateral, existDebt);
    StaysAvailable(Position(existCollateral + newDeposit, existDebt), loops);
    if p.debt < AAVE_WETH_LTV * p.collateral && p.debt > 0.0 {
      QuotientAbove(p.collateral * LIQ_THRESHOLD, p.debt, LIQ_THRESHOLD / AAVE_WETH_LTV);
    }
  }

  lemma QuotientAbove(a: real, b: real, bound: real)
    requires b > 0.0 && a > bound * b
    ensures a / b > bound
  {
    var q := a / b;
    assert q * b == a;
    assert q <= bound ==> q * b <= bound * b;
  }

  // ----- Health factors -----

  function EstimateHealthFactor(leverage: real): Option<real> {
    if leverage <= 1.0 then None else Some(LIQ_THRESHOLD * leverage / (leverage - 1.0))
  }

  lemma LeverageAtLeastOne(n: nat)
    ensures Leverage(n) >= 1.0 && (Leverage(n) > 1.0 <==> n > 0)
  {
    LeverageScaled(n);
    if n > 0 {
      PowerOfQ(n - 1);
    }
  }

  function Times(p: Position, equity: real): Position {
    Position(equity * p.collateral, equity * p.debt)
  }

  lemma {:induction false} LoopsScale(equity: real, n: nat)
    ensures Loops(Position(equity, 0.0), n) == Times(Loops(Position(1.0, 0.0), n), equity)
  {
    hide Loop, Loops, Times;
    LoopsStep(Position(equity, 0.0), n);
    LoopsStep(Position(1.0, 0.0), n);
    if n == 0 {
      TimesOne(equity);
    } else {
      LoopsScale(equity, n - 1);
      LoopScales(Loops(Position(1.0, 0.0), n - 1), equity);
    }
  }

  lemma TimesOne(equity: real)
    ensures Times(Position(1.0, 0.0), equity) == Position(equity, 0.0)
  {
  }

  lemma LoopScales(p: Position, equity: real)
    ensures Loop(Times(p, equity)) == Times(Loop(p), equity)
  {
    var c, d := equity * p.collateral, equity * p.debt;
    var borrowed := Available(p) * BORROW_FRACTION;
    assert equity * borrowed == Available(Position(c, d)) * BORROW_FRACTION;
  }

  /**
   * From an empty position, the projected health factor is the estimate for the leverage of as many
   * loops, less the swap fee.
   */
  lemma EmptyPositionHealth(equity: real, n: nat)
    requires equity > 0.0
    ensures var health := HealthFactor(FromState(n, equity, 0.0, 0.0));
            var estimate := EstimateHealthFactor(Leverage(n));
            health == if estimate.Some? then Some(KEPT * estimate.value) else None
  {
    hide HealthFactor, EstimateHealthFactor, Loops, Loop;
    var l, d := Leverage(n), Loops(Position(1.0, 0.0), n).debt;
    LoopsScale(equity, n);
    LoopsConserve(Position(1.0, 0.0), n);
    LeverageAtLeastOne(n);
    assert Position(0.0 + equity, 0.0) == Position(equity, 0.0);
    ScaledHealth(FromState(n, equity, 0.0, 0.0), equity, l, d);
  }

  lemma ScaledHealth(p: Position, equity: real, l: real, d: real)
    requires equity > 0.0 && l >= 1.0 && l - 1.0 == KEPT * d && p == Position(equity * l, equity * d)
    ensures var estimate := EstimateHealthFactor(l);
            HealthFactor(p) == if estimate.Some? then Some(KEPT * estimate.value) else None
  {
    if l > 1.0 {
      assert d > 0.0 && p.debt > 0.0;
      ScaledQuotient(p.collateral, p.debt, equity, l, d);
    } else {
      assert d == 0.0;
    }
  }

  lemma ScaledQuotient(collateral: real, debt: real, equity: real, l: real, d: real)
    requires equity > 0.0 && d > 0.0 && l - 1.0 == KEPT * d
    requires collateral == equity * l && debt == equity * d && debt > 0.0
    ensures collateral * LIQ_THRESHOLD / debt == KEPT * (LIQ_THRESHOLD * l / (l - 1.0))
  {
    var y := LIQ_THRESHOLD * l / (l - 1.0);
    var x := KEPT * y;
    assert y * (l - 1.0) == LIQ_THRESHOLD * l;
    assert x * d == y * (l - 1.0);
    assert x * debt == equity * (x * d);
    assert x * debt == collateral * LIQ_THRESHOLD;
    SameQuotient(collateral * LIQ_THRESHOLD, debt, x);
  }

  lemma SameQuotient(a: real, b: real, q: real)
    requires b > 0.0 && q * b == a
    ensures a / b == q
  {
    assert (a / b) * b == a;
  }

  // ----- The on-chain guard -----

  function Max(a: real, b: real): real {
    if a < b then b else a
  }

  /** The guard for a number of loops; None stands for infinity. */
  function SafetyGuard(loops: nat): Option<real> {
    match EstimateHealthFactor(Leverage(loops))
    case None => None
    case Some(expected) => Some(Max(expected * 0.95, 1.05))
  }

  /** The guard is the higher of 95 percent of the estimate and 1.05. */
  lemma {:induction false} SafetyGuardIs(loops: nat) returns (estimate: real)
    requires loops > 0
    ensures estimate * (Leverage(loops) - 1.0) == 0.825 * Leverage(loops)
    ensures var guard := SafetyGuard(loops);
            && guard.Some? && guard.value >= 1.05 && guard.value >= 0.95 * estimate
            && (guard.value == 1.05 || guard.value == 0.95 * estimate)
  {
    hide Leverage;
    LeverageAtLeastOne(loops);
    estimate := EstimateHealthFactor(Leverage(loops)).value;
  }

  /** A leverage up to this bound keeps the projected health factor at the least guard or above. */
  const GUARDED_LEVERAGE := 1.05 / (1.05 - KEPT * LIQ_THRESHOLD)

  /** The guard lets the position it was made for pass exactly up to a certain leverage, which is that of 14 loops. */
  lemma GuardPassesIff(equity: real, n: nat)
    requires equity > 0.0 && n > 0
    ensures var health := HealthFactor(FromState(n, equity, 0.0, 0.0));
            health.Some? && SafetyGuard(n).Some?
            && (health.value >= SafetyGuard(n).value <==> Leverage(n) <= GUARDED_LEVERAGE)
            && (health.value >= SafetyGuard(n).value <==> n <= 14)
  {
    hide HealthFactor, Leverage, FromState;
    EmptyPositionHealth(equity, n);
    LeverageAtLeastOne(n);
    GuardBound(Leverage(n));
    GuardedLoops(n);
  }

  lemma {:induction false} PowerSum(x: real, m: nat, n: nat)
    ensures Power(x, m + n) == Power(x, m) * Power(x, n)
  {
    if m != 0 {
      PowerSum(x, m - 1, n);
      Associate(x, Power(x, m - 1), Power(x, n));
    }
  }

  lemma {:induction false} PowerOne(x: real)
    ensures Power(x, 1) == x
  {
    assert Power(x, 0) == 1.0;
  }

  lemma ProductBounds(a: real, lowA: real, highA: real, b: real, lowB: real, highB: real)
    requires 0.0 <= lowA <= a <= highA && 0.0 <= lowB <= b <= highB
    ensures lowA * lowB <= a * b <= highA * highB
  {
    Scales(lowB, b, lowA);
    Scales(lowA, a, b);
    Scales(b, highB, highA);
    Scales(a, highA, b);
  }

  lemma Scales(a: real, b: real, x: real)
    requires a <= b && x >= 0.0
    ensures x * a <= x * b
  {
    assert x * (b - a) >= 0.0;
  }

  /** 0.83968 to the powers 14 and 15. */
  lemma {:induction false} PowersOfQ()
    ensures Power(Q, 14) >= 0.0865 && Power(Q, 15) <= 0.0728
  {
    hide Power;
    var q1, q2, q4, q8 := Power(Q, 1), Power(Q, 2), Power(Q, 4), Power(Q, 8);
    PowerOne(Q);
    PowerSum(Q, 1, 1);
    PowerSum(Q, 2, 2);
    PowerSum(Q, 4, 4);
    PowerSum(Q, 8, 4);
    PowerSum(Q, 12, 2);
    PowerSum(Q, 14, 1);
    ProductBounds(q1, 0.83968, 0.83968, q1, 0.83968, 0.83968);
    ProductBounds(q2, 0.705, 0.7051, q2, 0.705, 0.7051);
    ProductBounds(q4, 0.497, 0.4972, q4, 0.497, 0.4972);
    ProductBounds(q8, 0.247, 0.2473, q4, 0.497, 0.4972);
    ProductBounds(Power(Q, 12), 0.1227, 0.123, q2, 0.705, 0.7051);
    ProductBounds(Power(Q, 14), 0.0865, 0.08673, q1, 0.83968, 0.83968);
  }

  lemma {:induction false} GuardedLoops(n: nat)
    ensures Leverage(n) <= GUARDED_LEVERAGE <==> n <= 14
  {
    hide Leverage, Power;
    PowersOfQ();
    if n <= 14 {
      LeverageIncreases(n, 14);
      LeverageScaled(14);
    } else {
      LeverageIncreases(15, n);
      LeverageScaled(15);
    }
  }

  lemma GuardBound(l: real)
    requires l > 1.0
    ensures var e := EstimateHealthFactor(l).value;
            KEPT * e >= Max(e * 0.95, 1.05) <==> l <= GUARDED_LEVERAGE
  {
    var a, b := LIQ_THRESHOLD * l, l - 1.0;
    QuotientIs(a, b, a / b);
    ScaleBound(a, b, a / b);
  }

  lemma QuotientIs(a: real, b: real, q: real)
    requires b > 0.0 && q == a / b && a > 0.0
    ensures q * b == a && q > 0.0
  {
  }

  lemma ScaleBound(a: real, b: real, q: real)
    requires b > 0.0 && q * b == a
    ensures KEPT * q >= 1.05 <==> KEPT * a >= 1.05 * b
  {
    var x := KEPT * q - 1.05;
    assert x * b == KEPT * a - 1.05 * b;
    assert x >= 0.0 <==> x * b >= 0.0;
  }

  // ----- How many loops -----

  lemma {:induction false} LeverageIncreases(m: nat, n: nat)
    requires m <= n
    ensures Leverage(m) <= Leverage(n)
  {
    if m < n {
      LeverageIncreases(m, n - 1);
      LeverageClosedForm(n - 1);
    }
  }

  /** The least number of loops from 1 to 10 that reaches the target up to 5 percent, or 10. */
  method LoopsForLeverage(target: real) returns (loops: nat)
    ensures 1 <= loops <= 10
    ensures forall n: nat :: 1 <= n < loops ==> Leverage(n) < target * 0.95
    ensures loops < 10 ==> Leverage(loops) >= target * 0.95
  {
    for n := 1 to 11
      invariant forall k: nat :: 1 <= k < n ==> Leverage(k) < target * 0.95
    {
      var leverage := LeverageAfterLoops(n);
      if leverage >= target * 0.95 {
        return n;
      }
    }
    return 10;
  }
}
