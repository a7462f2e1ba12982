/** Single days of backtests without corporate actions, suspensions or exits by risk, by what the order's verdict is. */
module BacktestPlainRuns {
  import opened Common
  import opened RealMath
  import opened Market
  import opened Backtest
  import opened BacktestCausality

  /** No corporate actions, suspensions, dates, warm-up or exit by risk: every bar trades and is
      judged on the raw data. */
  predicate Plain(input: Input) {
    && input.actions == [] && input.suspended == {} && input.config.start.None? && input.config.end.None?
    && input.warmup == 0 && input.signal == [] && input.risk == Risk(None, None)
  }

  /** A day of a plain run: the pending order, the equity row, the decision. */
  lemma PlainDay(input: Input, t: Terms, s: State, i: nat)
    requires Plain(input) && i < |input.raw|
    ensures DayStep(input, t, s, i) ==
            Running(Decided(input, NoteEquity(Settled(s, input.raw, i, t), input.raw[i]), SoldToday(s, input.raw, i, t),
              input.raw, i))
  {
    hide Settled, SoldToday, Decided, NoteEquity;
    assert Morning(input, s, i) == s;
  }

  /** A first day that signals an entry. */
  lemma EntryDay(input: Input, t: Terms, cash: real)
    requires Plain(input) && input.raw != [] && input.entry(input.raw, 0)
    ensures var p := DayStep(input, t, InitialState(cash), 0);
            && p.Running? && p.s.book == Book(cash, [], 0.0) && p.s.orders == []
            && p.s.pend == Some(Pending(Buy, Signal(input.raw[0].time, EntryRule), None, input.entryFrac))
            && p.s.fills == [] && |p.s.equity| == 1 && p.s.equity[0].equity == cash
  {
    PlainDay(input, t, InitialState(cash), 0);
    assert Times(0.0, input.raw[0].close) == 0.0;
  }

  /** One equity row is added, with this equity. */
  ghost predicate NotedOnce(s: State, s': State, equity: real) {
    && |s'.equity| == |s.equity| + 1 && s'.equity[..|s.equity|] == s.equity && s'.equity[|s.equity|].equity == equity
  }

  /** A day on which a purchase fills and an exit is signalled. */
  lemma BuyDay(input: Input, t: Terms, s: State, i: nat, qty: real, px: real)
    requires Plain(input) && i < |input.raw| && input.exit(input.raw, i)
    requires s.pend.Some? && s.pend.value.side == Buy && s.book.lots == []
    requires BuyVerdict(s.pend.value.targetFrac, input.raw, i, s.book.cash, t) == Trade(qty, px) && qty > 0.0
    ensures var p := DayStep(input, t, s, i);
            && p.Running? && |p.s.orders| == |s.orders| + 1 && p.s.orders[..|s.orders|] == s.orders
            && p.s.book.lots == [Lot(qty, Cost(t, qty, px), AvailableFrom(input.raw, i, t.tPlus), input.raw[i].time)]
            && p.s.pend == Some(Pending(Sell, Signal(input.raw[i].time, ExitRule), None, 0.0))
            && p.s.book.cash == s.book.cash - Cost(t, qty, px) && p.s.book.recv == s.book.recv
            && p.s.fills == s.fills + [FillOf(Buy, input.raw[i], t, qty, px)]
            && NotedOnce(s, p.s, s.book.cash - Cost(t, qty, px) + Times(qty, input.raw[i].close) + s.book.recv)
  {
    hide BuyVerdict, Cost, AvailableFrom, DayStep;
    PlainDay(input, t, s, i);
    var lots := [Lot(qty, Cost(t, qty, px), AvailableFrom(input.raw, i, t.tPlus), input.raw[i].time)];
    assert s.book.lots + lots == lots;
    assert SumQty(lots) == qty by {
      assert lots[..0] == [];
    }
  }

  /** A day on which a pending exit meets one lot that would sell if it is available, and not otherwise. */
  lemma SellDay(input: Input, t: Terms, s: State, i: nat)
    requires Plain(input) && i < |input.raw| && t.tPlus != 0
    requires s.pend.Some? && s.pend.value.side == Sell && |s.book.lots| == 1
    requires SellVerdict(input.raw, i, s.book.lots[0].qty, t).Trade? && SellVerdict(input.raw, i, 0.0, t).Refuse?
    ensures var p := DayStep(input, t, s, i);
            && p.Running? && |p.s.orders| == |s.orders| + 1
            && p.s.orders[|s.orders|].outcome.Filled? == Reached(s.book.lots[0].available, input.raw[i].time)
  {
    hide SellVerdict, Decided, Sellable, DayStep, NoteEquity, Reached;
    PlainDay(input, t, s, i);
    SellableOfOne(s.book.lots, input.raw[i].time, t.tPlus);
    var settled := Settled(s, input.raw, i, t);
    NotingKeepsOrders(settled, input.raw[i]);
    DecisionKeepsOrders(input, NoteEquity(settled, input.raw[i]), SoldToday(s, input.raw, i, t), i);
  }

  /** A day on which part of the one lot is sold and another exit is signalled. */
  lemma SaleDay(input: Input, t: Terms, s: State, i: nat, qty: real, px: real)
    requires Plain(input) && i < |input.raw| && input.exit(input.raw, i) && t.tPlus != 0
    requires s.pend.Some? && s.pend.value.side == Sell && |s.book.lots| == 1
    requires Reached(s.book.lots[0].available, input.raw[i].time) && 0.0 < qty < s.book.lots[0].qty
    requires SellVerdict(input.raw, i, s.book.lots[0].qty, t) == Trade(qty, px)
    ensures var p := DayStep(input, t, s, i);
            var left := s.book.lots[0].qty - qty;
            && p.Running? && p.s.book ==
              Book(s.book.cash + Proceeds(t, qty, px), [s.book.lots[0].(qty := left)], s.book.recv)
            && p.s.pend == Some(Pending(Sell, Signal(input.raw[i].time, ExitRule), None, 0.0))
            && p.s.fills == s.fills + [FillOf(Sell, input.raw[i], t, qty, px)]
            && NotedOnce(s, p.s, s.book.cash + Proceeds(t, qty, px) + Times(left, input.raw[i].close) + s.book.recv)
  {
    hide SellVerdict, Sellable, DayStep, Proceeds, Reached;
    PlainDay(input, t, s, i);
    SellableOfOne(s.book.lots, input.raw[i].time, t.tPlus);
    var lots := [s.book.lots[0].(qty := s.book.lots[0].qty - qty)];
    assert Reduced(s.book.lots, qty) == lots;
    assert SumQty(lots) == s.book.lots[0].qty - qty by {
      assert lots[..0] == [];
    }
  }

  lemma SellableOfOne(lots: seq<Lot>, day: Day, tPlus: int)
    requires |lots| == 1 && tPlus != 0
    ensures Sellable(lots, day, tPlus) == if Reached(lots[0].available, day) then lots[0].qty else 0.0
  {
    assert lots[..0] == [];
  }

  lemma NotingKeepsOrders(s: State, day: Bar)
    ensures NoteEquity(s, day).orders == s.orders
  {
  }

  lemma DecisionKeepsOrders(input: Input, s: State, sold: bool, i: nat)
    requires i < |input.raw|
    ensures Decided(input, s, sold, input.raw, i).orders == s.orders
  {
  }

  /** Without re-basing no indicator error can stop the loop. */
  lemma {:induction false} NotRebasedNeverBroken(input: Input, t: Terms, cash: real, n: nat)
    requires n <= |input.raw| && !Rebased(input)
    ensures !RunTo(input, t, cash, n).Broken?
  {
    if n > 0 {
      NotRebasedNeverBroken(input, t, cash, n - 1);
    }
  }

  /** Entry on bar 0, purchase and exit signal on bar 1: on bar 2 the exit fills exactly if the engine takes the lot
      to be available by then. */
  lemma ThirdBarDecides(input: Input, t: Terms, cash: real, qty: real, px: real)
    requires Plain(input) && |input.raw| >= 3 && t.tPlus != 0 && Prepare(input) == Ready(t, cash)
    requires input.entry(input.raw, 0) && input.exit(input.raw, 1)
    requires BuyVerdict(input.entryFrac, input.raw, 1, cash, t) == Trade(qty, px) && qty > 0.0
    requires SellVerdict(input.raw, 2, qty, t).Trade? && SellVerdict(input.raw, 2, 0.0, t).Refuse?
    ensures var r := RunResult(input);
            && r.Succeeded? && |r.orders| >= 2
            && r.orders[1].outcome.Filled? == Reached(AvailableFrom(input.raw, 1, t.tPlus), input.raw[2].time)
  {
    hide BuyVerdict, SellVerdict, DayStep, Prepare, AvailableFrom, Reached, Cost;
    var n := |input.raw|;
    EntryDay(input, t, cash);
    var p1 := RunTo(input, t, cash, 1);
    assert RunTo(input, t, cash, 0) == Running(InitialState(cash));
    BuyDay(input, t, p1.s, 1, qty, px);
    var p2 := RunTo(input, t, cash, 2);
    SellDay(input, t, p2.s, 2);
    var p3 := RunTo(input, t, cash, 3);
    NotRebasedNeverBroken(input, t, cash, n);
    RunExtends(input, t, cash, 3, n);
    assert p3.s.orders <= RunTo(input, t, cash, n).s.orders;
  }
}
