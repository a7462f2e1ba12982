/** What one day of a backtest does: the order it submits, the row it notes and the signal it gives, from the book, the
    prices and the thresholds. */
module BacktestDays {
  import opened Common
  import opened RealMath
  import opened Market
  import opened Backtest
  import opened BacktestSettlement
  import opened BacktestFees
  import CausalPrices

  // ---------------------------------------------------------------- at most one lot, always

  lemma SettlingKeepsOneLot(s: State, raw: seq<Bar>, i: nat, t: Terms)
    requires i < |raw| && t.lot > 0 && OneLot(s)
    ensures OneLot(Settled(s, raw, i, t))
  {
    hide Executed, BuyVerdict, SellVerdict, Sellable;
    if s.pend.Some? {
      var p := s.pend.value;
      var e := Executed(p, raw, i, s.book, t);
      if p.side == Buy {
        BuyAddsOneLot(p, raw, i, s.book, t);
      } else {
        assert s.book.lots[0] in s.book.lots;
        ExitSellsWhatIsSettled(p, raw, i, s.book, t);
      }
      if e.order.outcome.Rejected? {
        RejectedChangesNothing(p, raw, i, s.book, t);
      }
    }
  }

  lemma BuyAddsOneLot(p: Pending, raw: seq<Bar>, i: nat, b: Book, t: Terms)
    requires i < |raw| && t.lot > 0 && p.side == Buy && b.lots == []
    ensures var e := Executed(p, raw, i, b, t);
            e.order.outcome.Filled? ==> |e.book.lots| == 1 && e.book.lots[0].qty > 0.0
  {
    hide AvailableFrom, FloorLot, Cost;
  }

  lemma MorningKeepsOneLot(input: Input, s: State, i: nat)
    requires i < |input.raw| && OneLot(s)
    ensures OneLot(Morning(input, s, i))
  {
    ActionsKeepOneLot(input.raw[i].time, input.actions, |input.actions|, SumQty(s.book.lots), s.book);
  }

  lemma {:induction false} OneLotAlways(input: Input, t: Terms, cash: real, n: nat)
    requires n <= |input.raw| && t.lot > 0
    ensures var p := RunTo(input, t, cash, n); !p.Broken? ==> OneLot(p.s)
  {
    hide DayStep;
    if n > 0 {
      OneLotAlways(input, t, cash, n - 1);
      var p := RunTo(input, t, cash, n - 1);
      if p.Running? {
        DayKeepsOneLot(input, t, p.s, n - 1);
      }
    }
  }

  lemma DayKeepsOneLot(input: Input, t: Terms, s: State, i: nat)
    requires i < |input.raw| && t.lot > 0 && OneLot(s)
    ensures var p := DayStep(input, t, s, i); !p.Broken? ==> OneLot(p.s)
  {
    hide Settled, Decided, Applied;
    MorningKeepsOneLot(input, s, i);
    var morning := Morning(input, s, i);
    SettlingKeepsOneLot(morning, input.raw, i, t);
    var noted := NoteEquity(Settled(morning, input.raw, i, t), input.raw[i]);
    DecisionKeepsOneLot(input, noted, SoldToday(morning, input.raw, i, t), EvalBars(input, i), i);
  }

  // ---------------------------------------------------------------- the signal of a day

  /** The holding has fallen to the stop or risen to the target, dividends not yet paid included. */
  ghost predicate AtThreshold(risk: Risk, l: Lot, close: real, recv: real) {
    var worth := Times(l.qty, close) + recv;
    && l.cost > 0.0
    && ((risk.stopLoss.Some? && worth <= Times(l.cost, 1.0 - risk.stopLoss.value))
        || (risk.takeProfit.Some? && worth >= Times(l.cost, 1.0 + risk.takeProfit.value)))
  }

  lemma HitRiskIff(risk: Risk, lots: seq<Lot>, day: Bar, recv: real)
    requires |lots| == 1 && lots[0].qty > 0.0
    ensures HitRisk(risk, lots, day, recv) <==> AtThreshold(risk, lots[0], day.close, recv)
  {
    assert lots[..0] == [];
    assert SumQty(lots) == lots[0].qty && SumCost(lots) == lots[0].cost;
    var worth, cost := Times(lots[0].qty, day.close) + recv, lots[0].cost;
    if cost > 0.0 {
      if risk.stopLoss.Some? {
        GainIff(worth, cost, -risk.stopLoss.value);
      }
      if risk.takeProfit.Some? {
        GainIff(worth, cost, risk.takeProfit.value);
      }
    }
  }

  /** A gain of `g` on the cost is a worth of 1 + g times the cost. */
  lemma GainIff(worth: real, cost: real, g: real)
    requires cost > 0.0
    ensures Over(worth - cost, cost) <= g <==> worth <= Times(cost, 1.0 + g)
    ensures Over(worth - cost, cost) >= g <==> worth >= Times(cost, 1.0 + g)
  {
    var gain := Over(worth - cost, cost);
    OverKeepsSign(worth - cost, cost);
    Distribute(cost, 1.0, g);
    assert Times(gain, cost) == Times(cost, gain);
    if gain < g {
      TimesStrictlyMonotone(gain, g, cost);
    } else if gain > g {
      TimesStrictlyMonotone(g, gain, cost);
    }
    assert Times(g, cost) == Times(cost, g);
  }

  /** The series the rules of bar i are judged on: the history re-based as of that day if prices
      are causal and there are
      corporate actions, else the given signal series, else the bars. */
  ghost function JudgedOn(input: Input, i: nat): seq<Bar>
    requires i < |input.raw|
  {
    if input.causal && input.actions != [] then
      CausalPrices.Causal(input.raw[..i + 1], input.actions, input.raw[i].time)
    else if input.signal == [] then input.raw
    else input.signal
  }

  /** What the close of bar i calls for, by the book after the day's order and whether that order sold. */
  ghost function Called(input: Input, i: nat, b: Book, sold: bool): Option<SignalKind>
    requires i < |input.raw|
  {
    if b.lots != [] && AtThreshold(input.risk, b.lots[0], input.raw[i].close, b.recv) then Some(RiskExit)
    else if b.lots != [] && input.exit(JudgedOn(input, i), i) then Some(ExitRule)
    else if b.lots == [] && !sold && input.entry(JudgedOn(input, i), i) then Some(EntryRule)
    else None
  }

  /** The order a signal leaves for the next open. */
  function OrderFor(s: Signal, frac: real): Pending {
    match s.kind
    case EntryRule => Pending(Buy, s, None, frac)
    case RiskExit => Pending(Sell, s, None, 0.0)
    case ExitRule => Pending(Sell, s, None, 0.0)
  }

  /** The day's order was a sale that filled. */
  ghost predicate Sold(s: State, s': State) {
    |s'.fills| > |s.fills| && s'.fills[|s.fills|].id.side == Sell
  }

  /** The signal `after` has more than `s`, and what waits for the next open: its order, or the day's exit if that was
      refused. */
  ghost predicate SignalsAs(s: State, after: State, kind: Option<SignalKind>, date: Day, frac: real) {
    match kind
    case Some(k) =>
      && after.signals == s.signals + [Signal(date, k)]
      && after.pend == Some(OrderFor(Signal(date, k), frac))
    case None =>
      && after.signals == s.signals
      && after.pend == LeftWaiting(s, after)
  }

  /** Of the orders only a refused exit waits on, with the reason of its refusal. */
  ghost function LeftWaiting(s: State, after: State): Option<Pending> {
    if s.pend.Some? && s.pend.value.side == Sell && |after.orders| > |s.orders| &&
       after.orders[|s.orders|].outcome.Rejected?
    then Some(s.pend.value.(reason := Some(after.orders[|s.orders|].outcome.reason)))
    else None
  }

  /** On a traded day the waiting order, if any, is submitted once, under its own signal; a fill is recorded if and only
      if it filled. */
  ghost predicate Submits(s: State, after: State, date: Day) {
    match s.pend
    case None => after.orders == s.orders && after.fills == s.fills
    case Some(p) =>
      && |after.orders| == |s.orders| + 1 && after.orders[..|s.orders|] == s.orders
      && var o := after.orders[|s.orders|];
         && o.id == OrderId(date, p.side) && o.signal == p.signal
         && after.fills == s.fills + if o.outcome.Filled? then [o.outcome.fill] else []
  }

  lemma SettlingSubmits(s: State, raw: seq<Bar>, i: nat, t: Terms)
    requires i < |raw|
    ensures var after := Settled(s, raw, i, t);
            && Submits(s, after, raw[i].time)
            && after.pend == LeftWaiting(s, after) && after.signals == s.signals && after.equity == s.equity
            && (SoldToday(s, raw, i, t) <==> Sold(s, after))
  {
    hide BuyVerdict, SellVerdict, Sellable, AvailableFrom, Reduced, Cost, Proceeds;
    if s.pend.Some? {
      ExecutedKeepsNames(s.pend.value, raw, i, s.book, t);
    }
  }

  lemma ExecutedKeepsNames(p: Pending, raw: seq<Bar>, i: nat, b: Book, t: Terms)
    requires i < |raw|
    ensures var o := Executed(p, raw, i, b, t).order;
            && o.id == OrderId(raw[i].time, p.side) && o.signal == p.signal
            && (o.outcome.Filled? ==> o.outcome.fill.id == o.id)
  {
    hide BuyVerdict, SellVerdict, Sellable;
  }

  lemma DecisionSignals(input: Input, s: State, sold: bool, i: nat)
    requires i < |input.raw| && OneLot(s)
    ensures var after := Decided(input, s, sold, EvalBars(input, i), i);
            var kind := Called(input, i, s.book, sold);
            && after.book == s.book && after.orders == s.orders && after.fills == s.fills && after.equity == s.equity
            && (if kind.Some? then
                  && after.signals == s.signals + [Signal(input.raw[i].time, kind.value)]
                  && after.pend == Some(OrderFor(Signal(input.raw[i].time, kind.value), input.entryFrac))
                else after == s)
  {
    hide HitRisk, AtThreshold, CausalPrices.Causal;
    SumOfAtMostOne(s.book.lots);
    if s.book.lots != [] {
      assert s.book.lots[0] in s.book.lots;
      HitRiskIff(input.risk, s.book.lots, input.raw[i], s.book.recv);
    }
  }

  /** The row of a day marks the book to the close. */
  ghost predicate Marks(r: EquityRow, b: Book, day: Bar) {
    var shares := if b.lots == [] then 0.0 else b.lots[0].qty;
    && r.date == day.time && r.cash == b.cash && r.qty == shares && r.marketValue == Times(shares, day.close)
    && r.equity == b.cash + Times(shares, day.close) + b.recv
  }

  ghost predicate AddsRow(s: State, after: State, day: Bar) {
    && |after.equity| == |s.equity| + 1 && after.equity[..|s.equity|] == s.equity
    && Marks(after.equity[|s.equity|], after.book, day)
  }

  lemma NotingMarks(s: State, day: Bar)
    requires OneLot(s)
    ensures var after := NoteEquity(s, day);
            && AddsRow(s, after, day) && after.book == s.book && after.pend == s.pend
            && after.orders == s.orders && after.fills == s.fills && after.signals == s.signals
  {
    hide Drawdown.Noted;
    SumOfAtMostOne(s.book.lots);
  }

  /** The bar comes before the start, after the end, or its day is suspended. */
  predicate BeforeStart(input: Input, i: nat)
    requires i < |input.raw|
  {
    input.config.start.Some? && input.raw[i].time < input.config.start.value
  }

  predicate AfterEnd(input: Input, i: nat)
    requires i < |input.raw|
  {
    input.config.end.Some? && input.raw[i].time > input.config.end.value
  }

  /** What a day does to the state of the loop. */
  ghost predicate Lives(input: Input, s: State, after: State, i: nat)
    requires i < |input.raw|
  {
    var day := input.raw[i];
    if BeforeStart(input, i) then after == s
    else if day.time in input.suspended then
      && AddsRow(s, after, day)
      && after.book == s.book && after.pend == s.pend
      && after.orders == s.orders && after.fills == s.fills && after.signals == s.signals
    else
      && AddsRow(s, after, day)
      && Submits(s, after, day.time)
      && SignalsAs(s, after, if i < input.warmup then None else Called(input, i, after.book, Sold(s, after)),
                   day.time, input.entryFrac)
  }

  /** After the end the loop is over; before it, every day lives as said, or the indicators fail on the re-based
      history of a day past the warm-up. */
  lemma DayLives(input: Input, t: Terms, s: State, i: nat)
    requires i < |input.raw| && t.lot > 0 && OneLot(s)
    ensures var p := DayStep(input, t, s, i);
            && (p.Ended? <==> !BeforeStart(input, i) && AfterEnd(input, i))
            && (p.Ended? ==> p.s == s)
            && (p.Broken? <==>
                  && !BeforeStart(input, i) && !AfterEnd(input, i) && input.raw[i].time !in input.suspended
                  && i >= input.warmup && input.causal && input.actions != []
                  && !input.computable(JudgedOn(input, i)))
            && (p.Running? ==> Lives(input, s, p.s, i))
  {
    hide Settled, SoldToday, Decided, NoteEquity, Called, SignalsAs, Marks, Submits, CausalPrices.Causal;
    if !BeforeStart(input, i) && !AfterEnd(input, i) {
      if input.raw[i].time in input.suspended {
        NotingMarks(s, input.raw[i]);
      } else {
        DayTrades(input, t, s, i);
      }
    }
  }

  lemma DayTrades(input: Input, t: Terms, s: State, i: nat)
    requires i < |input.raw| && t.lot > 0 && OneLot(s)
    ensures var morning := Morning(input, s, i);
            var noted := NoteEquity(Settled(morning, input.raw, i, t), input.raw[i]);
            var after := Decided(input, noted, SoldToday(morning, input.raw, i, t), EvalBars(input, i), i);
            && TradesAs(input, s, noted, i, None)
            && TradesAs(input, s, after, i, Called(input, i, after.book, Sold(s, after)))
  {
    hide Settled, SoldToday, Decided, NoteEquity, Called, Applied;
    MorningKeepsOneLot(input, s, i);
    var morning := Morning(input, s, i);
    SettlingKeepsOneLot(morning, input.raw, i, t);
    SettlingSubmits(morning, input.raw, i, t);
    var settled := Settled(morning, input.raw, i, t);
    NotingMarks(settled, input.raw[i]);
    var noted := NoteEquity(settled, input.raw[i]);
    DecisionSignals(input, noted, SoldToday(morning, input.raw, i, t), i);
  }

  ghost predicate TradesAs(input: Input, s: State, after: State, i: nat, kind: Option<SignalKind>)
    requires i < |input.raw|
  {
    && AddsRow(s, after, input.raw[i])
    && Submits(s, after, input.raw[i].time)
    && SignalsAs(s, after, kind, input.raw[i].time, input.entryFrac)
  }

  /** So lives every bar of every run. */
  lemma RunLives(input: Input, t: Terms, cash: real, i: nat)
    requires i < |input.raw| && Prepare(input) == Ready(t, cash)
    requires RunTo(input, t, cash, i).Running? && RunTo(input, t, cash, i + 1).Running?
    ensures !AfterEnd(input, i) || BeforeStart(input, i)
    ensures Lives(input, RunTo(input, t, cash, i).s, RunTo(input, t, cash, i + 1).s, i)
  {
    hide DayStep, Lives;
    OneLotAlways(input, t, cash, i);
    DayLives(input, t, RunTo(input, t, cash, i).s, i);
  }
}
