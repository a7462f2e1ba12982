/** What the backtest charges: each fill from its price, its quantity and the rates, and the ledger of a whole run from
    the amounts it traded. */
module BacktestFees {
  import opened Common
  import opened RealMath
  import opened Market
  import opened Backtest
  import opened BacktestLedger

  // ---------------------------------------------------------------- one fill

  function Notional(f: Fill): real {
    Times(f.price, f.qty)
  }

  function Larger(x: real, y: real): real {
    if x < y then y else x
  }

  /** The stamp duty of the fill's own side. */
  function StampRate(t: Terms, side: Side): real {
    match side
    case Buy => t.stampBuy
    case Sell => t.stampSell
  }

  /** The fill is charged by its own amount and side, and moves cash by that amount less what is charged. */
  ghost predicate Charged(f: Fill, t: Terms) {
    && f.fees.commission == Larger(Times(Notional(f), t.commissionRate), t.commissionMin)
    && f.fees.stamp == Times(Notional(f), StampRate(t, f.id.side))
    && f.fees.transfer == Times(Notional(f), t.transferRate)
    && f.cashDelta == (if f.id.side == Buy then -Notional(f) else Notional(f))
                      - (f.fees.commission + f.fees.stamp + f.fees.transfer)
  }

  /** Every order that fills is charged so, moves cash by just that, and a purchase adds one lot at what it cost. */
  lemma FilledIsCharged(p: Pending, raw: seq<Bar>, i: nat, b: Book, t: Terms)
    requires i < |raw| && Executed(p, raw, i, b, t).order.outcome.Filled?
    ensures var e := Executed(p, raw, i, b, t);
            var f := e.order.outcome.fill;
            && Charged(f, t) && f.id == e.order.id == OrderId(raw[i].time, p.side)
            && e.book.cash == b.cash + f.cashDelta && e.book.recv == b.recv
            && (p.side == Buy ==>
                  && |e.book.lots| == |b.lots| + 1 && e.book.lots[..|b.lots|] == b.lots
                  && e.book.lots[|b.lots|].qty == f.qty && e.book.lots[|b.lots|].cost == -f.cashDelta
                  && e.book.lots[|b.lots|].buyDate == raw[i].time)
  {
    hide BuyVerdict, SellVerdict, Sellable, Reduced, AvailableFrom;
  }

  /** An order that does not fill leaves the book alone. */
  lemma RejectedChangesNothing(p: Pending, raw: seq<Bar>, i: nat, b: Book, t: Terms)
    requires i < |raw| && Executed(p, raw, i, b, t).order.outcome.Rejected?
    ensures Executed(p, raw, i, b, t).book == b
  {
    hide BuyVerdict, SellVerdict, Sellable;
  }

  // ---------------------------------------------------------------- whole runs

  ghost predicate AllCharged(fills: seq<Fill>, t: Terms) {
    forall k :: 0 <= k < |fills| ==> Charged(fills[k], t)
  }

  /** The amount traded on one side. */
  ghost function Amount(fills: seq<Fill>, side: Side): real {
    if fills == [] then 0.0
    else
      var f := fills[|fills| - 1];
      Amount(fills[..|fills| - 1], side) + if f.id.side == side then Notional(f) else 0.0
  }

  ghost function Commissions(fills: seq<Fill>, t: Terms): real {
    if fills == [] then 0.0
    else
      var f := fills[|fills| - 1];
      Commissions(fills[..|fills| - 1], t) + Larger(Times(Notional(f), t.commissionRate), t.commissionMin)
  }

  /** What the fills did to cash, by the amounts traded on either side. */
  ghost function NetOfFees(fills: seq<Fill>, t: Terms): real {
    var bought, sold := Amount(fills, Buy), Amount(fills, Sell);
    sold - bought - Commissions(fills, t)
    - Times(bought, t.stampBuy) - Times(sold, t.stampSell) - Times(bought + sold, t.transferRate)
  }

  lemma {:induction false} DeltasAreNetOfFees(fills: seq<Fill>, t: Terms)
    requires AllCharged(fills, t)
    ensures SumDeltas(fills) == NetOfFees(fills, t)
    decreases |fills|
  {
    hide Notional, Larger;
    if fills == [] {
      assert Times(0.0, t.stampBuy) == Times(0.0, t.stampSell) == Times(0.0 + 0.0, t.transferRate) == 0.0;
    } else {
      var front, f := fills[..|fills| - 1], fills[|fills| - 1];
      DeltasAreNetOfFees(front, t);
      assert Charged(f, t);
      var x := Notional(f);
      var bought, sold := Amount(front, Buy), Amount(front, Sell);
      AddTimes(bought, x, t.stampBuy);
      AddTimes(sold, x, t.stampSell);
      AddTimes(bought + sold, x, t.transferRate);
      assert (bought + x) + sold == (bought + sold) + x == bought + (sold + x);
      assert bought + 0.0 == bought && sold + 0.0 == sold;
    }
  }

  lemma AddTimes(x: real, y: real, r: real)
    ensures Times(x + y, r) == Times(x, r) + Times(y, r)
  {
  }

  lemma SettlingCharges(s: State, raw: seq<Bar>, i: nat, t: Terms)
    requires i < |raw| && AllCharged(s.fills, t)
    ensures AllCharged(Settled(s, raw, i, t).fills, t)
  {
    hide Executed, Charged;
    if s.pend.Some? {
      var e := Executed(s.pend.value, raw, i, s.book, t);
      if e.order.outcome.Filled? {
        FilledIsCharged(s.pend.value, raw, i, s.book, t);
      }
    }
  }

  lemma {:induction false} FillsAreCharged(input: Input, t: Terms, cash: real, n: nat)
    requires n <= |input.raw|
    ensures var p := RunTo(input, t, cash, n); !p.Broken? ==> AllCharged(p.s.fills, t)
  {
    hide DayStep, Settled, Charged;
    if n > 0 {
      FillsAreCharged(input, t, cash, n - 1);
      var p := RunTo(input, t, cash, n - 1);
      if p.Running? {
        SettlingCharges(Morning(input, p.s, n - 1), input.raw, n - 1, t);
        DayKeepsLedger(input, t, p.s, n - 1);
      }
    }
  }

  // ---------------------------------------------------------------- dividends

  /** The dividends per share recorded on `day` among the first n actions. */
  ghost function PerShare(actions: seq<CorporateAction>, n: nat, day: Day): real
    requires n <= |actions|
  {
    if n == 0 then 0.0
    else
      var a := actions[n - 1];
      PerShare(actions, n - 1, day) + if a.kind == CashDividend && a.recordDate == Some(day) then a.cashAmount else 0.0
  }

  /** What the shares held at the start of bar k are due that day. */
  ghost function Due(input: Input, p: Progress, k: nat): real
    requires k < |input.raw|
  {
    if p.Running? && Traded(input, k) && SumQty(p.s.book.lots) > 0.0
    then Times(SumQty(p.s.book.lots), PerShare(input.actions, |input.actions|, input.raw[k].time))
    else 0.0
  }

  /** The dividends the shares held in a run were due on the first n bars. */
  ghost function Dividends(input: Input, t: Terms, cash: real, n: nat): real
    requires n <= |input.raw|
  {
    if n == 0 then 0.0
    else Dividends(input, t, cash, n - 1) + Due(input, RunTo(input, t, cash, n - 1), n - 1)
  }

  lemma {:induction false} AccrualIsPerShare(date: Day, actions: seq<CorporateAction>, n: nat, qty: real)
    requires n <= |actions|
    ensures AccrualSum(date, actions, n, qty) == if qty > 0.0 then Times(qty, PerShare(actions, n, date)) else 0.0
  {
    if n > 0 {
      AccrualIsPerShare(date, actions, n - 1, qty);
      Distribute(qty, PerShare(actions, n - 1, date), actions[n - 1].cashAmount);
    } else {
      assert Times(qty, 0.0) == 0.0;
    }
  }

  lemma {:induction false} AccruedIsDividends(input: Input, t: Terms, cash: real, n: nat)
    requires n <= |input.raw|
    ensures Accrued(input, t, cash, n) == Dividends(input, t, cash, n)
  {
    hide RunTo, AccrualSum, PerShare, SumQty, Traded;
    if n > 0 {
      AccruedIsDividends(input, t, cash, n - 1);
      var p := RunTo(input, t, cash, n - 1);
      if p.Running? {
        AccrualIsPerShare(input.raw[n - 1].time, input.actions, |input.actions|, SumQty(p.s.book.lots));
      }
    }
  }

  /** In every loop state cash plus receivable is the initial cash, plus what was sold and less what was bought, less a
      commission for each fill and the rates on the amounts of their sides,
        plus the dividends due on the shares held. */
  lemma LedgerByAmounts(input: Input, t: Terms, cash: real, n: nat)
    requires n <= |input.raw|
    ensures var p := RunTo(input, t, cash, n);
            !p.Broken? ==>
              p.s.book.cash + p.s.book.recv == cash + NetOfFees(p.s.fills, t) + Dividends(input, t, cash, n)
  {
    hide RunTo, NetOfFees, SumDeltas, Accrued, Dividends;
    LedgerBalances(input, t, cash, n);
    AccruedIsDividends(input, t, cash, n);
    var p := RunTo(input, t, cash, n);
    if !p.Broken? {
      FillsAreCharged(input, t, cash, n);
      DeltasAreNetOfFees(p.s.fills, t);
    }
  }
}
