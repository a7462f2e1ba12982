/** The ledger of the backtest: conservation of cash, the bound on overdraft and the noted drawdown. */
module BacktestLedger {
  import opened RealMath
  import opened Market
  import opened Backtest
  import Drawdown

  // ---------------------------------------------------------------- conservation

  ghost function SumDeltas(fills: seq<Fill>): real {
    if fills == [] then 0.0 else SumDeltas(fills[..|fills| - 1]) + fills[|fills| - 1].cashDelta
  }

  /** What the first n actions accrue as dividends on `date` for a holding of `qty`. */
  ghost function AccrualSum(date: Day, actions: seq<CorporateAction>, n: nat, qty: real): real
    requires n <= |actions|
  {
    if n == 0 then 0.0 else AccrualSum(date, actions, n - 1, qty) + Accrual(date, actions[n - 1], qty)
  }

  /** Bar i is inside the configured period and not suspended. */
  predicate Traded(input: Input, i: nat)
    requires i < |input.raw|
  {
    var day := input.raw[i];
    && (input.config.start.Some? ==> input.config.start.value <= day.time)
    && (input.config.end.Some? ==> day.time <= input.config.end.value)
    && day.time !in input.suspended
  }

  /** The dividends accrued by the first n bars of a run. */
  ghost function Accrued(input: Input, t: Terms, cash: real, n: nat): real
    requires n <= |input.raw|
  {
    if n == 0 then 0.0
    else
      var p := RunTo(input, t, cash, n - 1);
      Accrued(input, t, cash, n - 1) +
      if p.Running? && Traded(input, n - 1)
      then AccrualSum(input.raw[n - 1].time, input.actions, |input.actions|, SumQty(p.s.book.lots))
      else 0.0
  }

  lemma {:induction false} ActionsConserve(date: Day, actions: seq<CorporateAction>, n: nat, qty: real, b: Book)
    requires n <= |actions|
    ensures var after := ApplyFirst(date, actions, n, qty, b);
            && after.cash + after.recv == b.cash + b.recv + AccrualSum(date, actions, n, qty)
            && after.cash >= b.cash
            && |after.lots| == |b.lots|
  {
    if n > 0 {
      ActionsConserve(date, actions, n - 1, qty, b);
    }
  }

  lemma SettlingConserves(s: State, raw: seq<Bar>, i: nat, t: Terms)
    requires i < |raw|
    ensures var after := Settled(s, raw, i, t);
            && after.book.recv == s.book.recv
            && after.book.cash - SumDeltas(after.fills) == s.book.cash - SumDeltas(s.fills)
  {
    var after := Settled(s, raw, i, t);
    if after.fills != s.fills {
      assert after.fills[..|s.fills|] == s.fills;
    }
  }

  /** Cash plus receivable is the initial cash, plus the cash deltas of the fills, plus the accrued dividends. */
  lemma {:induction false} LedgerBalances(input: Input, t: Terms, cash: real, n: nat)
    requires n <= |input.raw|
    ensures var p := RunTo(input, t, cash, n);
            !p.Broken? ==> p.s.book.cash + p.s.book.recv == cash + SumDeltas(p.s.fills) + Accrued(input, t, cash, n)
  {
    hide DayStep, Settled, ApplyFirst, AccrualSum, SumQty, Traded;
    if n > 0 {
      LedgerBalances(input, t, cash, n - 1);
      var p := RunTo(input, t, cash, n - 1);
      if p.Running? {
        ActionsConserve(input.raw[n - 1].time, input.actions, |input.actions|, SumQty(p.s.book.lots), p.s.book);
        SettlingConserves(Morning(input, p.s, n - 1), input.raw, n - 1, t);
        DayKeepsLedger(input, t, p.s, n - 1);
      }
    } else {
      assert SumDeltas([]) == 0.0;
    }
  }

  /** After the order of the day only the equity rows, the signals and the pending order change. */
  lemma DayKeepsLedger(input: Input, t: Terms, s: State, i: nat)
    requires i < |input.raw|
    ensures var p := DayStep(input, t, s, i);
            var after := if Traded(input, i) then Settled(Morning(input, s, i), input.raw, i, t) else s;
            !p.Broken? ==> p.s.book == after.book && p.s.fills == after.fills && p.s.orders == after.orders
  {
  }

  // ---------------------------------------------------------------- overdraft

  /** Non-negative rates, at most the whole notional in fees, and a slippage between 0 and 1. */
  ghost predicate FairTerms(t: Terms) {
    && t.commissionRate >= 0.0 && t.commissionMin >= 0.0
    && t.stampBuy >= 0.0 && t.stampSell >= 0.0 && t.transferRate >= 0.0
    && t.commissionRate + t.stampSell + t.transferRate <= 1.0
    && 0.0 <= t.slip <= 1.0
  }

  /** The number of sells after the last buy. */
  ghost function SellsSinceBuy(fills: seq<Fill>): nat {
    if fills == [] || fills[|fills| - 1].id.side == Buy then 0 else SellsSinceBuy(fills[..|fills| - 1]) + 1
  }

  lemma FloorOfNonNegative(x: real)
    requires x >= 0.0
    ensures x.Floor >= 0
  {
  }

  lemma SellPriceNotNegative(raw: seq<Bar>, i: nat, t: Terms)
    requires i < |raw| && raw[i].open > 0.0 && t.slip <= 1.0
    ensures SellPrice(raw, i, t) >= 0.0
  {
    var px := Times(raw[i].open, 1.0 - t.slip);
    TimesKeepsSign(raw[i].open, 1.0 - t.slip);
    if t.tick > 0.0 {
      OverKeepsSign(px, t.tick);
      FloorOfNonNegative(Over(px, t.tick));
      TimesKeepsSign(Over(px, t.tick).Floor as real, t.tick);
    }
  }

  /** A sale costs at most the minimum commission. */
  lemma SaleCostsAtMostMinimum(t: Terms, qty: real, px: real)
    requires FairTerms(t) && qty >= 0.0 && px >= 0.0
    ensures Proceeds(t, qty, px) >= -t.commissionMin
  {
    var notional := Times(px, qty);
    TimesKeepsSign(px, qty);
    TimesKeepsSign(notional, t.commissionRate);
    var rates := t.commissionRate + t.stampSell + t.transferRate;
    Distribute(notional, t.commissionRate, t.stampSell);
    Distribute(notional, t.commissionRate + t.stampSell, t.transferRate);
    TimesMonotone(rates, 1.0, notional);
  }

  /** What the order of the day does to fills and cash: nothing, a purchase that is paid for, or a sale of a positive
      quantity at the day's price. */
  lemma SettledCash(s: State, raw: seq<Bar>, i: nat, t: Terms)
    requires i < |raw|
    ensures var after := Settled(s, raw, i, t);
            || (after.fills == s.fills && after.book.cash == s.book.cash)
            || (exists f: Fill :: after.fills == s.fills + [f] && after.book.cash == s.book.cash + f.cashDelta &&
                  if f.id.side == Buy then after.book.cash >= 0.0
                  else f.qty > 0.0 && f.cashDelta == Proceeds(t, f.qty, SellPrice(raw, i, t)) && raw[i].open > 0.0)
  {
    hide Cost, Proceeds, BuyVerdict, SellVerdict;
    if s.pend.Some? {
      BuyIsPaid(s.pend.value.targetFrac, raw, i, s.book.cash, t);
      SaleIsAtPrice(raw, i, Sellable(s.book.lots, raw[i].time, t.tPlus), t);
      var e := Executed(s.pend.value, raw, i, s.book, t);
      if e.order.outcome.Filled? {
        assert Settled(s, raw, i, t).fills == s.fills + [e.order.outcome.fill];
      }
    }
  }

  lemma BuyIsPaid(frac: real, raw: seq<Bar>, i: nat, cash: real, t: Terms)
    requires i < |raw|
    ensures var v := BuyVerdict(frac, raw, i, cash, t); v.Trade? ==> Cost(t, v.qty, v.price) <= cash
  {
    hide Cost;
  }

  lemma SaleIsAtPrice(raw: seq<Bar>, i: nat, sellable: real, t: Terms)
    requires i < |raw|
    ensures var v := SellVerdict(raw, i, sellable, t);
            v.Trade? ==> v.qty > 0.0 && v.price == SellPrice(raw, i, t) && raw[i].open > 0.0
  {
  }

  lemma OrderKeepsCashBound(s: State, raw: seq<Bar>, i: nat, t: Terms)
    requires i < |raw| && FairTerms(t)
    requires s.book.cash >= -Times(t.commissionMin, SellsSinceBuy(s.fills) as real)
    ensures var after := Settled(s, raw, i, t);
            && after.book.cash >= -Times(t.commissionMin, SellsSinceBuy(after.fills) as real)
            && (|after.fills| > |s.fills| && after.fills[|s.fills|].id.side == Buy ==> after.book.cash >= 0.0)
  {
    hide Settled, Proceeds, SellPrice, Times;
    SettledCash(s, raw, i, t);
    var after := Settled(s, raw, i, t);
    if after.fills != s.fills {
      var f: Fill :| after.fills == s.fills + [f] && after.book.cash == s.book.cash + f.cashDelta &&
        if f.id.side == Buy then after.book.cash >= 0.0
        else f.qty > 0.0 && f.cashDelta == Proceeds(t, f.qty, SellPrice(raw, i, t)) && raw[i].open > 0.0;
      assert after.fills[..|s.fills|] == s.fills;
      CountedSells(t.commissionMin, SellsSinceBuy(s.fills));
      if f.id.side == Sell {
        SellPriceNotNegative(raw, i, t);
        SaleCostsAtMostMinimum(t, f.qty, SellPrice(raw, i, t));
      }
    }
  }

  lemma CountedSells(m: real, n: nat)
    ensures Times(m, (n + 1) as real) == Times(m, n as real) + m && Times(m, 0.0) == 0.0
  {
    Distribute(m, n as real, 1.0);
  }

  /** Cash never falls below the minimum commission times the sells since the last buy;
      in particular it is never negative right after a buy. */
  lemma {:induction false} CashBound(input: Input, t: Terms, cash: real, n: nat)
    requires n <= |input.raw| && FairTerms(t) && cash >= 0.0
    ensures var p := RunTo(input, t, cash, n);
            !p.Broken? ==> p.s.book.cash >= -Times(t.commissionMin, SellsSinceBuy(p.s.fills) as real)
  {
    hide DayStep, Settled, ApplyFirst, SumQty, Traded;
    if n > 0 {
      CashBound(input, t, cash, n - 1);
      var p := RunTo(input, t, cash, n - 1);
      if p.Running? {
        ActionsConserve(input.raw[n - 1].time, input.actions, |input.actions|, SumQty(p.s.book.lots), p.s.book);
        OrderKeepsCashBound(Morning(input, p.s, n - 1), input.raw, n - 1, t);
        DayKeepsLedger(input, t, p.s, n - 1);
      }
    }
  }

  // ---------------------------------------------------------------- drawdown

  ghost function Levels(rows: seq<EquityRow>): seq<real> {
    seq(|rows|, k requires 0 <= k < |rows| => rows[k].equity)
  }

  /** The state's peak and rows are those of the equity curve noted so far. */
  ghost predicate PeakFollowsEquity(cash: real, s: State) {
    && s.peak == Drawdown.Peak(cash, Levels(s.equity), |s.equity|)
    && Drawdown.NotedAlong(cash, Levels(s.equity), Drawdowns(s.equity))
  }

  lemma {:induction false} PeakOfPrefix(initial: real, curve: seq<real>, longer: seq<real>, n: nat)
    requires n <= |curve| <= |longer| && longer[..|curve|] == curve
    ensures Drawdown.Peak(initial, longer, n) == Drawdown.Peak(initial, curve, n)
  {
    if n > 0 {
      PeakOfPrefix(initial, curve, longer, n - 1);
      assert longer[n - 1] == longer[..|curve|][n - 1];
    }
  }

  lemma NotingFollowsPeak(cash: real, s: State, day: Bar)
    requires PeakFollowsEquity(cash, s)
    ensures PeakFollowsEquity(cash, NoteEquity(s, day))
  {
    var after := NoteEquity(s, day);
    var curve, longer := Levels(s.equity), Levels(after.equity);
    var m := |s.equity|;
    assert longer[..m] == curve;
    PeakOfPrefix(cash, curve, longer, m);
    forall k | 0 <= k < m + 1
      ensures Drawdowns(after.equity)[k] == Drawdown.Noted(Drawdown.Peak(cash, longer, k + 1), longer[k])
    {
      if k < m {
        PeakOfPrefix(cash, curve, longer, k + 1);
        assert Drawdowns(s.equity)[k] == Drawdown.Noted(Drawdown.Peak(cash, curve, k + 1), curve[k]);
      }
    }
  }

  lemma DayFollowsPeak(input: Input, t: Terms, cash: real, s: State, i: nat)
    requires i < |input.raw| && PeakFollowsEquity(cash, s)
    ensures var p := DayStep(input, t, s, i); !p.Broken? ==> PeakFollowsEquity(cash, p.s)
  {
    hide Executed, HitRisk, EvalBars, Applied, SumQty, Drawdown.Peak, Drawdown.NotedAlong;
    if Traded(input, i) {
      NotingFollowsPeak(cash, Settled(Morning(input, s, i), input.raw, i, t), input.raw[i]);
    } else {
      NotingFollowsPeak(cash, s, input.raw[i]);
    }
  }

  lemma {:induction false} RunFollowsPeak(input: Input, t: Terms, cash: real, n: nat)
    requires n <= |input.raw|
    ensures var p := RunTo(input, t, cash, n); !p.Broken? ==> PeakFollowsEquity(cash, p.s)
  {
    hide DayStep;
    if n > 0 {
      RunFollowsPeak(input, t, cash, n - 1);
      var p := RunTo(input, t, cash, n - 1);
      if p.Running? {
        DayFollowsPeak(input, t, cash, p.s, n - 1);
      }
    }
  }

  /** The maximum drawdown a run reports is the worst fall of its equity curve, when no row is negative. */
  lemma ReportedDrawdownIsWorstFall(input: Input)
    requires RunResult(input).Succeeded?
    requires forall k :: 0 <= k < |RunResult(input).equity| ==> RunResult(input).equity[k].equity >= 0.0
    ensures var r := RunResult(input);
            && Drawdown.WorstFall(input.config.initialCash.value, Levels(r.equity), r.maxDrawdown)
            && 0.0 <= r.maxDrawdown <= 1.0
  {
    var r := RunResult(input);
    var setup := Prepare(input);
    RunFollowsPeak(input, setup.terms, setup.cash, |input.raw|);
    Drawdown.SinglePassIsWorstFall(setup.cash, Levels(r.equity), Drawdowns(r.equity));
  }

  /** A run reports the worst fall of its equity curve, and one within the whole, exactly when no row is negative. */
  lemma ReportedDrawdownIsRightIff(input: Input)
    requires RunResult(input).Succeeded?
    ensures var r := RunResult(input);
            Drawdown.WorstFall(input.config.initialCash.value, Levels(r.equity), r.maxDrawdown)
              && r.maxDrawdown <= 1.0 <==>
            forall k :: 0 <= k < |r.equity| ==> r.equity[k].equity >= 0.0
  {
    var setup := Prepare(input);
    RunFollowsPeak(input, setup.terms, setup.cash, |input.raw|);
    var r := RunResult(input);
    assert forall k :: 0 <= k < |r.equity| ==> Levels(r.equity)[k] == r.equity[k].equity;
    Drawdown.WorstFallWithinWholeIff(setup.cash, Levels(r.equity), Drawdowns(r.equity));
  }
}
