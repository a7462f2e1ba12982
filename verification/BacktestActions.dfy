/** Corporate actions in the backtest: what they make of the shares held, and when a dividend becomes cash. */
module BacktestActions {
  import opened Common
  import opened RealMath
  import opened Market
  import opened Backtest
  import opened BacktestLedger
  import opened BacktestSettlement
  import opened BacktestFees
  import opened BacktestDays

  // ---------------------------------------------------------------- splits

  /** The ratio of the splits among the first n actions that take effect on `day`; ratios that are not positive are
      ignored. */
  ghost function SplitRatio(actions: seq<CorporateAction>, n: nat, day: Day): real
    requires n <= |actions|
  {
    if n == 0 then 1.0
    else
      var a := actions[n - 1];
      var before := SplitRatio(actions, n - 1, day);
      if a.kind == Split && a.effectiveAt == Some(day) && a.ratio > 0.0 then Times(before, a.ratio) else before
  }

  /** A held lot is multiplied by the day's splits; nothing else about it changes. */
  lemma {:induction false} SplitsMultiply(date: Day, actions: seq<CorporateAction>, n: nat, qty: real, b: Book)
    requires n <= |actions| && |b.lots| == 1 && qty > 0.0
    ensures var after := ApplyFirst(date, actions, n, qty, b).lots;
            after == [b.lots[0].(qty := Times(b.lots[0].qty, SplitRatio(actions, n, date)))]
  {
    if n == 0 {
      assert Times(b.lots[0].qty, 1.0) == b.lots[0].qty;
    } else {
      SplitsMultiply(date, actions, n - 1, qty, b);
      Associate(b.lots[0].qty, SplitRatio(actions, n - 1, date), actions[n - 1].ratio);
    }
  }

  lemma {:induction false} NothingHeldStays(date: Day, actions: seq<CorporateAction>, n: nat, qty: real, b: Book)
    requires n <= |actions| && b.lots == []
    ensures ApplyFirst(date, actions, n, qty, b).lots == []
  {
    if n > 0 {
      NothingHeldStays(date, actions, n - 1, qty, b);
    }
  }

  function Shares(b: Book): real {
    if b.lots == [] then 0.0 else b.lots[0].qty
  }

  /** What the orders of a day did to the shares held. */
  ghost function Moved(s: State, after: State): real {
    if |after.fills| <= |s.fills| then 0.0
    else
      var f := after.fills[|s.fills|];
      if f.id.side == Buy then f.qty else -f.qty
  }

  lemma MorningShares(input: Input, s: State, i: nat)
    requires i < |input.raw| && OneLot(s)
    ensures var b := Morning(input, s, i).book;
            && Shares(b) == Times(Shares(s.book), SplitRatio(input.actions, |input.actions|, input.raw[i].time))
            && (b.lots == [] <==> s.book.lots == [])
            && (b.lots != [] ==> b.lots[0].cost == s.book.lots[0].cost)
  {
    hide SplitRatio, ApplyFirst;
    var day, actions := input.raw[i].time, input.actions;
    SumOfAtMostOne(s.book.lots);
    if s.book.lots == [] {
      NothingHeldStays(day, actions, |actions|, SumQty(s.book.lots), s.book);
      assert Times(0.0, SplitRatio(actions, |actions|, day)) == 0.0;
    } else {
      assert s.book.lots[0] in s.book.lots;
      SplitsMultiply(day, actions, |actions|, SumQty(s.book.lots), s.book);
    }
  }

  lemma SettlingMovesShares(s: State, raw: seq<Bar>, i: nat, t: Terms)
    requires i < |raw| && t.lot > 0 && OneLot(s)
    ensures var after := Settled(s, raw, i, t); Shares(after.book) == Shares(s.book) + Moved(s, after)
  {
    hide Executed;
    if s.pend.Some? {
      var p := s.pend.value;
      var e := Executed(p, raw, i, s.book, t);
      ExecutedKeepsNames(p, raw, i, s.book, t);
      if e.order.outcome.Filled? {
        FilledIsCharged(p, raw, i, s.book, t);
        if p.side == Sell {
          assert s.book.lots[0] in s.book.lots;
          ExitSellsWhatIsSettled(p, raw, i, s.book, t);
        }
      }
    }
  }

  /** On a traded day the shares held are those of the day before times the day's splits, and what the order moved. */
  lemma SharesMove(input: Input, t: Terms, s: State, i: nat)
    requires i < |input.raw| && t.lot > 0 && OneLot(s) && Traded(input, i) && DayStep(input, t, s, i).Running?
    ensures var after := DayStep(input, t, s, i).s;
            Shares(after.book) ==
            Times(Shares(s.book), SplitRatio(input.actions, |input.actions|, input.raw[i].time)) + Moved(s, after)
  {
    hide SplitRatio, Settled, Applied;
    MorningShares(input, s, i);
    MorningKeepsOneLot(input, s, i);
    SettlingMovesShares(Morning(input, s, i), input.raw, i, t);
    DayKeepsLedger(input, t, s, i);
  }

  // ---------------------------------------------------------------- dividends

  predicate Pays(a: CorporateAction, day: Day) {
    a.kind == CashDividend && a.payDate == Some(day)
  }

  predicate Records(a: CorporateAction, day: Day) {
    a.kind == CashDividend && a.recordDate == Some(day)
  }

  /** Action j pays on `day` and nothing later in the list is recorded then. */
  ghost predicate PaysAll(actions: seq<CorporateAction>, j: nat, day: Day)
    requires j < |actions|
  {
    Pays(actions[j], day) && forall k :: j < k < |actions| ==> !Records(actions[k], day)
  }

  ghost predicate NoneNegative(actions: seq<CorporateAction>) {
    forall k :: 0 <= k < |actions| ==> actions[k].cashAmount >= 0.0
  }

  /** Cash waits for a pay day. */
  lemma {:induction false} CashWaitsForPayDay(date: Day, actions: seq<CorporateAction>, n: nat, qty: real, b: Book)
    requires n <= |actions| && forall k :: 0 <= k < n ==> !Pays(actions[k], date)
    ensures ApplyFirst(date, actions, n, qty, b).cash == b.cash
  {
    if n > 0 {
      CashWaitsForPayDay(date, actions, n - 1, qty, b);
    }
  }

  /** A pay day leaves nothing receivable but what is recorded after the payment. */
  lemma {:induction false} PayDayPays(date: Day, actions: seq<CorporateAction>, n: nat, qty: real, b: Book, j: nat)
    requires j < n <= |actions| && PaysAll(actions[..n], j, date)
    ensures ApplyFirst(date, actions, n, qty, b).recv <= 0.0
  {
    if n > j + 1 {
      assert !Records(actions[..n][n - 1], date);
      PayDayPays(date, actions, n - 1, qty, b, j);
    }
  }

  lemma {:induction false} ReceivableNotNegative(date: Day, actions: seq<CorporateAction>, n: nat, qty: real, b: Book)
    requires n <= |actions| && b.recv >= 0.0 && NoneNegative(actions)
    ensures ApplyFirst(date, actions, n, qty, b).recv >= 0.0
  {
    if n > 0 {
      ReceivableNotNegative(date, actions, n - 1, qty, b);
      TimesKeepsSign(qty, actions[n - 1].cashAmount);
    }
  }

  /** What the actions of a traded bar make of cash and receivable: together they grow by what the shares are due; cash
      is left alone without a pay day; and a pay day that records nothing later pays out everything, if no dividend is
      negative. */
  lemma MorningPays(input: Input, s: State, i: nat)
    requires i < |input.raw| && OneLot(s)
    ensures var day, b := input.raw[i].time, Morning(input, s, i).book;
            var due := Times(Shares(s.book), PerShare(input.actions, |input.actions|, day));
            && b.cash + b.recv == s.book.cash + s.book.recv + due
            && ((forall k :: 0 <= k < |input.actions| ==> !Pays(input.actions[k], day)) ==> b.cash == s.book.cash)
            && (s.book.recv >= 0.0 && NoneNegative(input.actions) ==>
                  && b.recv >= 0.0
                  && forall j :: 0 <= j < |input.actions| && PaysAll(input.actions, j, day) ==> b.recv == 0.0)
  {
    hide ApplyFirst, PerShare, Pays, Records;
    var day, actions, qty := input.raw[i].time, input.actions, SumQty(s.book.lots);
    SumOfAtMostOne(s.book.lots);
    if s.book.lots != [] {
      assert s.book.lots[0] in s.book.lots;
    }
    ActionsConserve(day, actions, |actions|, qty, s.book);
    AccrualIsPerShare(day, actions, |actions|, qty);
    assert Times(0.0, PerShare(actions, |actions|, day)) == 0.0;
    if forall k :: 0 <= k < |actions| ==> !Pays(actions[k], day) {
      CashWaitsForPayDay(day, actions, |actions|, qty, s.book);
    }
    if s.book.recv >= 0.0 && NoneNegative(actions) {
      ReceivableNotNegative(day, actions, |actions|, qty, s.book);
      forall j | 0 <= j < |actions| && PaysAll(actions, j, day) ensures Morning(input, s, i).book.recv == 0.0 {
        assert actions[..|actions|] == actions;
        PayDayPays(day, actions, |actions|, qty, s.book, j);
      }
    }
  }
}
