/** Runs whose cash and equity go below zero: the bound on cash is reached for every minimum commission and any number
    of sells, and the reported drawdown of such a run need not be its worst fall. */
module BacktestOverdraft {
  import opened Common
  import opened RealMath
  import opened Market
  import opened Backtest
  import opened BacktestPlainRuns
  import opened BacktestLedger
  import Drawdown

  // ---------------------------------------------------------------- the runs

  /** A share is bought at 10 and falls to half a tick, where a sale brings nothing but the minimum commission. */
  function PennyBar(k: nat, d: nat): Bar {
    if d == 0 then Bar(0, 10.0, 10.0, 10.0, 10.0, (k + 1) as real)
    else if d == 1 then Bar(1, 10.0, 10.0, 0.5, 0.5, (k + 1) as real)
    else Bar(d, 0.5, 0.5, 0.5, 0.5, 1.0)
  }

  /** On bar 1 all cash goes into k + 1 shares; each of the k bars that follow sells one of them. */
  function PennyRun(m: real, k: nat): Input {
    Input(true, true, false,
      seq(k + 2, (d: nat) => PennyBar(k, d)), [], [], {},
      Rule(1, Some(1.0), None, 1, Some(0.0), m, 0.0, 0.0, 0.0),
      Config(None, None, Some(StartCash(m, k)), Some(0.0), Some(1.0)), Risk(None, None), 0, 1.0,
      bars => true, (bars, i) => i >= 1, (bars, i) => i == 0)
  }

  function StartCash(m: real, k: nat): real {
    10.0 * (k + 1) as real + m
  }

  /** The terms of the run. */
  ghost predicate Penny(t: Terms, m: real) {
    t == Terms(1, 1.0, None, 1, 0.0, m, 0.0, 0.0, 0.0, 0.0, 1.0)
  }

  lemma PennyIsReady(m: real, k: nat) returns (t: Terms)
    requires m >= 0.0
    ensures Penny(t, m) && Prepare(PennyRun(m, k)) == Ready(t, StartCash(m, k))
  {
    t := Resolve(PennyRun(m, k).rule, PennyRun(m, k).config);
    assert Over(0.0, 10000.0) == 0.0;
    var raw := PennyRun(m, k).raw;
    forall d | 0 <= d < |raw| ensures raw[d].high >= raw[d].low && raw[d].volume >= 0.0 {
      assert raw[d] == PennyBar(k, d);
    }
  }

  // ---------------------------------------------------------------- its two kinds of order

  lemma PennyFees(t: Terms, m: real, side: Side, notional: real)
    requires Penny(t, m) && m >= 0.0
    ensures Total(FeeList(t, side, notional)) == m
  {
    assert Times(notional, 0.0) == 0.0;
  }

  lemma LotsOfOne(q: real)
    ensures FloorLot(q, 1) == q.Floor as real
  {
    assert Over(q, 1.0) == q;
    assert Times(q.Floor as real, 1.0) == q.Floor as real;
  }

  lemma WholeShares(n: nat)
    ensures FloorLot(n as real, 1) == n as real
  {
    LotsOfOne(n as real);
  }

  lemma FloorAtLeast(q: real, n: int)
    requires q >= n as real
    ensures q.Floor >= n
  {
  }

  lemma PennyPrices(m: real, k: nat, t: Terms)
    requires Penny(t, m)
    ensures BuyPrice(PennyRun(m, k).raw, 1, t) == 10.0
    ensures forall i :: 2 <= i < k + 2 ==> SellPrice(PennyRun(m, k).raw, i, t) == 0.0
  {
    var raw := PennyRun(m, k).raw;
    assert raw[1] == PennyBar(k, 1);
    assert Over(10.0, 1.0) == 10.0 && Times(10.0, 1.0) == 10.0 && Ceil(10.0) == 10;
    assert Times(0.5, 1.0) == 0.5 && Over(0.5, 1.0) == 0.5 && (0.5).Floor == 0 && Times(0.0, 1.0) == 0.0;
    forall i | 2 <= i < k + 2 ensures SellPrice(raw, i, t) == 0.0 {
      assert raw[i] == PennyBar(k, i);
    }
  }

  lemma NothingBlocks(m: real, k: nat, t: Terms, i: nat, side: Side)
    requires Penny(t, m) && 1 <= i < k + 2
    ensures var raw := PennyRun(m, k).raw; Gate(raw, i, t).None? && !LimitBlocked(raw, i, t, side)
  {
    var raw := PennyRun(m, k).raw;
    assert raw[i] == PennyBar(k, i) && raw[i - 1] == PennyBar(k, i - 1);
    assert Times(raw[i - 1].volume, 1.0) == raw[i - 1].volume;
  }

  /** A purchase that the previous day's volume caps. */
  lemma CappedBuy(frac: real, raw: seq<Bar>, i: nat, cash: real, t: Terms, denom: real, cap: real)
    requires i < |raw| && Gate(raw, i, t).None? && !LimitBlocked(raw, i, t, Buy)
    requires denom == Times(BuyPrice(raw, i, t), 1.0 + (t.commissionRate + t.stampBuy + t.transferRate)) && denom > 0.0
    requires cap == Times(PreviousVolume(raw, i), t.part) == Times(raw[i].volume, t.part) && cap >= t.lot as real > 0.0
    requires FloorLot(cap, t.lot) == cap <= FloorLot(Over(Times(cash, frac), denom), t.lot)
    requires Cost(t, cap, BuyPrice(raw, i, t)) <= cash
    ensures BuyVerdict(frac, raw, i, cash, t) == Trade(cap, BuyPrice(raw, i, t))
  {
    hide Gate, LimitBlocked, FloorLot, Cost, BuyPrice, Times, Over, PreviousVolume;
  }

  lemma PennyBuys(m: real, k: nat, t: Terms)
    requires Penny(t, m) && m >= 0.0
    ensures BuyVerdict(1.0, PennyRun(m, k).raw, 1, StartCash(m, k), t) == Trade((k + 1) as real, 10.0)
    ensures Cost(t, (k + 1) as real, 10.0) == StartCash(m, k)
  {
    hide FloorLot, Total, BuyVerdict, Gate, LimitBlocked, BuyPrice;
    var raw, n := PennyRun(m, k).raw, (k + 1) as real;
    assert raw[0] == PennyBar(k, 0) && raw[1] == PennyBar(k, 1);
    PennyFees(t, m, Buy, Times(10.0, n));
    assert Times(10.0, n) == 10.0 * n && Times(10.0, 1.0) == 10.0 && Times(n, 1.0) == n;
    PennyPrices(m, k, t);
    NothingBlocks(m, k, t, 1, Buy);
    WantedCoversAll(m, k);
    WholeShares(k + 1);
    CappedBuy(1.0, raw, 1, StartCash(m, k), t, 10.0, n);
  }

  /** The cash buys at least k + 1 shares. */
  lemma WantedCoversAll(m: real, k: nat)
    requires m >= 0.0
    ensures FloorLot(Over(Times(StartCash(m, k), 1.0), 10.0), 1) >= (k + 1) as real
  {
    var x := StartCash(m, k);
    assert Times(x, 1.0) == x;
    assert Over(x, 10.0) == x / 10.0 >= (k + 1) as real;
    hide Over, Times, FloorLot;
    LotsOfOne(Over(Times(x, 1.0), 10.0));
    FloorAtLeast(Over(Times(x, 1.0), 10.0), k + 1);
  }

  /** A sale of one share, all that the day's volume allows. */
  lemma ShareSells(raw: seq<Bar>, i: nat, left: real, t: Terms, cap: real)
    requires i < |raw| && Gate(raw, i, t).None? && !LimitBlocked(raw, i, t, Sell)
    requires cap == Times(PreviousVolume(raw, i), t.part) >= 1.0 && Times(raw[i].volume, t.part) == 1.0
    requires left > 1.0 && FloorLot(1.0, t.lot) == 1.0 && FloorLot(cap, t.lot) == cap
    ensures SellVerdict(raw, i, left, t) == Trade(1.0, SellPrice(raw, i, t))
  {
    hide Gate, LimitBlocked, FloorLot, SellPrice, Times, PreviousVolume;
  }

  lemma PennySells(m: real, k: nat, t: Terms, i: nat, left: nat)
    requires Penny(t, m) && m >= 0.0 && 2 <= i < k + 2 && 2 <= left
    ensures SellVerdict(PennyRun(m, k).raw, i, left as real, t) == Trade(1.0, 0.0)
    ensures Proceeds(t, 1.0, 0.0) == -m
  {
    hide Total, FloorLot, SellVerdict, Gate, LimitBlocked, SellPrice;
    var raw := PennyRun(m, k).raw;
    assert raw[i] == PennyBar(k, i) && raw[i - 1] == PennyBar(k, i - 1);
    PennyFees(t, m, Sell, Times(0.0, 1.0));
    assert Times(0.0, 1.0) == 0.0 && Times(1.0, 1.0) == 1.0;
    var cap := raw[i - 1].volume;
    assert Times(cap, 1.0) == cap;
    PennyPrices(m, k, t);
    NothingBlocks(m, k, t, i, Sell);
    WholeShares(1);
    WholeShares(k + 1);
    ShareSells(raw, i, left as real, t, cap);
  }

  // ---------------------------------------------------------------- what the run does

  /** The equity on bar d. */
  function PennyEquity(m: real, k: nat, d: nat): real {
    if d == 0 then StartCash(m, k) else -Times(m, (d - 1) as real) + Times((k + 2 - d) as real, 0.5)
  }

  /** k + 1 - sold shares are held, each sale has cost the minimum commission, the next exit waits. */
  ghost predicate Sold(s: State, m: real, k: nat, sold: nat) {
    && sold <= k && |s.book.lots| == 1 && s.book.lots[0].qty == (k + 1 - sold) as real
    && s.book.lots[0].available == AvailableFrom(PennyRun(m, k).raw, 1, 1)
    && s.book.cash == -Times(m, sold as real) && s.book.recv == 0.0
    && s.pend.Some? && s.pend.value.side == Sell && SellsSinceBuy(s.fills) == sold
    && |s.equity| == sold + 2 && forall d :: 0 <= d < |s.equity| ==> s.equity[d].equity == PennyEquity(m, k, d)
  }

  lemma PennyIsPlain(m: real, k: nat)
    ensures var input := PennyRun(m, k);
            && Plain(input) && |input.raw| == k + 2 && input.entry(input.raw, 0) && input.entryFrac == 1.0
            && forall i: nat :: i >= 1 ==> input.exit(input.raw, i)
  {
  }

  lemma AvailableAfterPurchase(m: real, k: nat, i: nat)
    requires 2 <= i < k + 2
    ensures Reached(AvailableFrom(PennyRun(m, k).raw, 1, 1), PennyRun(m, k).raw[i].time)
  {
    var raw := PennyRun(m, k).raw;
    assert raw[i] == PennyBar(k, i) && raw[1] == PennyBar(k, 1) && raw[2] == PennyBar(k, 2);
  }

  lemma TwoDays(m: real, k: nat, t: Terms)
    requires Penny(t, m) && m >= 0.0
    ensures var p := RunTo(PennyRun(m, k), t, StartCash(m, k), 2); p.Running? && Sold(p.s, m, k, 0)
  {
    hide DayStep, BuyVerdict, Cost, FillOf, AvailableFrom;
    var input, cash := PennyRun(m, k), StartCash(m, k);
    PennyIsPlain(m, k);
    EntryDay(input, t, cash);
    assert RunTo(input, t, cash, 0) == Running(InitialState(cash));
    var s1 := RunTo(input, t, cash, 1).s;
    PennyBuys(m, k, t);
    BuyDay(input, t, s1, 1, (k + 1) as real, 10.0);
    var s2 := RunTo(input, t, cash, 2).s;
    assert Times(m, 0.0) == 0.0;
    BuyStartsCount(s1.fills, input.raw[1], t, (k + 1) as real, 10.0);
    assert input.raw[1] == PennyBar(k, 1);
    RowsAfterBuy(s1, s2, m, k);
  }

  lemma BuyStartsCount(fills: seq<Fill>, day: Bar, t: Terms, qty: real, px: real)
    ensures SellsSinceBuy(fills + [FillOf(Buy, day, t, qty, px)]) == 0
  {
  }

  lemma SaleCounts(fills: seq<Fill>, day: Bar, t: Terms, qty: real, px: real)
    ensures SellsSinceBuy(fills + [FillOf(Sell, day, t, qty, px)]) == SellsSinceBuy(fills) + 1
  {
    var f := FillOf(Sell, day, t, qty, px);
    assert (fills + [f])[..|fills|] == fills;
  }

  lemma RowsAfterBuy(s1: State, s2: State, m: real, k: nat)
    requires |s1.equity| == 1 && s1.equity[0].equity == StartCash(m, k)
    requires NotedOnce(s1, s2, 0.0 + Times((k + 1) as real, 0.5) + 0.0)
    ensures |s2.equity| == 2 && forall d :: 0 <= d < 2 ==> s2.equity[d].equity == PennyEquity(m, k, d)
  {
    assert s2.equity[0] == s2.equity[..1][0];
    assert Times(m, 0.0) == 0.0;
  }

  lemma RowsAfterSale(s: State, s': State, m: real, k: nat, sold: nat)
    requires sold < k && |s.equity| == sold + 2
             && forall d :: 0 <= d < |s.equity| ==> s.equity[d].equity == PennyEquity(m, k, d)
    requires NotedOnce(s, s', -Times(m, (sold + 1) as real) + Times((k - sold) as real, 0.5) + 0.0)
    ensures |s'.equity| == sold + 3 && forall d :: 0 <= d < |s'.equity| ==> s'.equity[d].equity == PennyEquity(m, k, d)
  {
    forall d | 0 <= d < |s'.equity| ensures s'.equity[d].equity == PennyEquity(m, k, d) {
      if d < |s.equity| {
        assert s'.equity[..|s.equity|][d] == s.equity[d];
      }
    }
  }

  /** After its purchase the run sells one share a day, each at the cost of the minimum commission. */
  lemma {:induction false} SellsEveryDay(m: real, k: nat, t: Terms, sold: nat)
    requires Penny(t, m) && m >= 0.0 && sold <= k
    ensures var p := RunTo(PennyRun(m, k), t, StartCash(m, k), sold + 2); p.Running? && Sold(p.s, m, k, sold)
  {
    if sold == 0 {
      TwoDays(m, k, t);
    } else {
      SellsEveryDay(m, k, t, sold - 1);
      var input, cash := PennyRun(m, k), StartCash(m, k);
      NextSale(m, k, t, RunTo(input, t, cash, sold + 1).s, sold - 1);
    }
  }

  lemma NextSale(m: real, k: nat, t: Terms, s: State, sold: nat)
    requires Penny(t, m) && m >= 0.0 && sold < k && Sold(s, m, k, sold)
    ensures var p := DayStep(PennyRun(m, k), t, s, sold + 2); p.Running? && Sold(p.s, m, k, sold + 1)
  {
    hide DayStep, SellVerdict, Proceeds, FillOf, AvailableFrom, Reached, SellsSinceBuy, PennyEquity;
    var input, i := PennyRun(m, k), sold + 2;
    PennyIsPlain(m, k);
    AvailableAfterPurchase(m, k, i);
    PennySells(m, k, t, i, k + 1 - sold);
    SaleDay(input, t, s, i, 1.0, 0.0);
    SaleCounts(s.fills, input.raw[i], t, 1.0, 0.0);
    assert input.raw[i] == PennyBar(k, i);
    assert Times(m, (sold + 1) as real) == Times(m, sold as real) + m by {
      Distribute(m, sold as real, 1.0);
      assert Times(m, 1.0) == m;
    }
    RowsAfterSale(s, DayStep(input, t, s, i).s, m, k, sold);
  }

  // ---------------------------------------------------------------- what follows

  /** The bound on cash is tight: for every minimum commission and every number of sells since the last buy some run
      reaches it. */
  lemma CashBoundIsTight(m: real, k: nat)
    requires m >= 0.0
    ensures exists input: Input, t: Terms, cash: real, n: nat ::
              && n <= |input.raw| && Prepare(input) == Ready(t, cash) && FairTerms(t) && t.commissionMin == m
              && RunTo(input, t, cash, n).Running? && SellsSinceBuy(RunTo(input, t, cash, n).s.fills) == k
              && RunTo(input, t, cash, n).s.book.cash == -Times(m, k as real)
  {
    hide Prepare, RunTo;
    var t := PennyIsReady(m, k);
    SellsEveryDay(m, k, t, k);
    assert RunTo(PennyRun(m, k), t, StartCash(m, k), k + 2).Running?;
  }

  /** A run that notes negative equity need not report its worst fall: with a minimum commission of 5 two shares bought
      for 25 are worth 1, then one is sold; the report is a fall by 29.5/25, the worst fall is by 5.5. */
  lemma ReportedDrawdownCanHideAFall()
    ensures exists input: Input ::
              && RunResult(input).Succeeded? && input.config.initialCash.Some?
              && !Drawdown.WorstFall(input.config.initialCash.value, Levels(RunResult(input).equity),
                RunResult(input).maxDrawdown)
  {
    hide Prepare, RunTo;
    var input := PennyRun(5.0, 1);
    var t := PennyIsReady(5.0, 1);
    SellsEveryDay(5.0, 1, t, 1);
    RunFollowsPeak(input, t, 25.0, 3);
    var s := RunTo(input, t, 25.0, 3).s;
    assert RunResult(input) == Outcomes(s);
    assert StartCash(5.0, 1) == 25.0 && PennyEquity(5.0, 1, 1) == 1.0 && PennyEquity(5.0, 1, 2) == -4.5;
    assert Levels(s.equity) == [25.0, 1.0, -4.5];
    Drawdown.NegativeEquityHidesAFall(Levels(s.equity), Drawdowns(s.equity));
  }
}
