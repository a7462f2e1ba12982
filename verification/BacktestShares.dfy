/** Shares in a backtest without splits: what is held is what the last buy bought less what was sold since. */
module BacktestShares {
  import opened Market
  import opened Backtest
  import opened BacktestLedger
  import opened BacktestSettlement

  /** The quantity of the last buy. */
  ghost function Bought(fills: seq<Fill>): real {
    if fills == [] then 0.0
    else if fills[|fills| - 1].id.side == Buy then fills[|fills| - 1].qty
    else Bought(fills[..|fills| - 1])
  }

  /** The quantity sold since the last buy. */
  ghost function SoldSince(fills: seq<Fill>): real {
    if fills == [] || fills[|fills| - 1].id.side == Buy then 0.0
    else SoldSince(fills[..|fills| - 1]) + fills[|fills| - 1].qty
  }

  ghost predicate NoSplits(actions: seq<CorporateAction>) {
    forall k :: 0 <= k < |actions| ==> actions[k].kind != Split
  }

  /** At every point of the fills no more has been sold than the last buy bought. */
  ghost predicate NeverOversold(fills: seq<Fill>) {
    forall m :: 0 <= m <= |fills| ==> SoldSince(fills[..m]) <= Bought(fills[..m])
  }

  ghost predicate SharesBalance(s: State) {
    SumQty(s.book.lots) == Bought(s.fills) - SoldSince(s.fills) && NeverOversold(s.fills)
  }

  lemma FillsGrow(fills: seq<Fill>, f: Fill)
    requires NeverOversold(fills) && SoldSince(fills + [f]) <= Bought(fills + [f])
    ensures NeverOversold(fills + [f])
  {
    var after := fills + [f];
    forall m | 0 <= m <= |after| ensures SoldSince(after[..m]) <= Bought(after[..m]) {
      if m <= |fills| {
        assert after[..m] == fills[..m];
      } else {
        assert after[..m] == after;
      }
    }
  }

  lemma AfterFill(fills: seq<Fill>, f: Fill)
    ensures Bought(fills + [f]) == if f.id.side == Buy then f.qty else Bought(fills)
    ensures SoldSince(fills + [f]) == if f.id.side == Buy then 0.0 else SoldSince(fills) + f.qty
  {
    assert (fills + [f])[..|fills|] == fills;
  }

  /** Without splits corporate actions leave the lots alone. */
  lemma {:induction false} ActionsKeepLots(date: Day, actions: seq<CorporateAction>, n: nat, qty: real, b: Book)
    requires n <= |actions| && NoSplits(actions)
    ensures ApplyFirst(date, actions, n, qty, b).lots == b.lots
  {
    if n > 0 {
      ActionsKeepLots(date, actions, n - 1, qty, b);
    }
  }

  lemma BuyKeepsBalance(s: State, raw: seq<Bar>, i: nat, t: Terms)
    requires i < |raw| && OneLot(s) && SharesBalance(s) && s.pend.Some? && s.pend.value.side == Buy && t.lot > 0
    ensures SharesBalance(Settled(s, raw, i, t))
  {
    hide BuyVerdict, NeverOversold;
    var after := Settled(s, raw, i, t);
    if after.fills != s.fills {
      var f := after.fills[|s.fills|];
      assert after.fills == s.fills + [f];
      assert |after.book.lots| == 1 && after.book.lots[0].qty == f.qty;
      SumOfAtMostOne(after.book.lots);
      AfterFill(s.fills, f);
      BoughtIsPositive(s, raw, i, t);
      FillsGrow(s.fills, f);
    }
  }

  lemma BoughtIsPositive(s: State, raw: seq<Bar>, i: nat, t: Terms)
    requires i < |raw| && s.pend.Some? && s.pend.value.side == Buy && t.lot > 0
    ensures var v := BuyVerdict(s.pend.value.targetFrac, raw, i, s.book.cash, t); v.Trade? ==> v.qty > 0.0
  {
  }

  lemma SaleKeepsBalance(s: State, raw: seq<Bar>, i: nat, t: Terms)
    requires i < |raw| && OneLot(s) && SharesBalance(s) && s.pend.Some? && s.pend.value.side == Sell && t.lot > 0
    ensures SharesBalance(Settled(s, raw, i, t))
  {
    hide Executed, NeverOversold;
    var after := Settled(s, raw, i, t);
    assert s.book.lots[0] in s.book.lots;
    ExitSellsWhatIsSettled(s.pend.value, raw, i, s.book, t);
    if after.fills != s.fills {
      var f := after.fills[|s.fills|];
      assert after.fills == s.fills + [f];
      SumOfAtMostOne(s.book.lots);
      SumOfAtMostOne(after.book.lots);
      AfterFill(s.fills, f);
      FillsGrow(s.fills, f);
    }
  }

  lemma SettlingKeepsBalance(s: State, raw: seq<Bar>, i: nat, t: Terms)
    requires i < |raw| && OneLot(s) && SharesBalance(s) && t.lot > 0
    ensures SharesBalance(Settled(s, raw, i, t))
  {
    hide Executed, SharesBalance;
    if s.pend.Some? {
      if s.pend.value.side == Buy {
        BuyKeepsBalance(s, raw, i, t);
      } else {
        SaleKeepsBalance(s, raw, i, t);
      }
    }
  }

  /** In every loop state of a run without splits the shares balance. */
  lemma {:induction false} SharesAlwaysBalance(input: Input, t: Terms, cash: real, n: nat)
    requires Increasing(input.raw) && n <= |input.raw| && t.lot > 0 && NoSplits(input.actions)
    ensures var p := RunTo(input, t, cash, n); !p.Broken? ==> SharesBalance(p.s)
  {
    hide DayStep, Settled, ApplyFirst;
    if n > 0 {
      SharesAlwaysBalance(input, t, cash, n - 1);
      var p := RunTo(input, t, cash, n - 1);
      if p.Running? {
        SettlementHolds(input, t, cash, n - 1);
        MorningKeepsInv(input, t, p.s, n - 1);
        ActionsKeepLots(input.raw[n - 1].time, input.actions, |input.actions|, SumQty(p.s.book.lots), p.s.book);
        SettlingKeepsBalance(Morning(input, p.s, n - 1), input.raw, n - 1, t);
        DayKeepsLedger(input, t, p.s, n - 1);
      }
    }
  }

  /** Over a whole run without splits the shares sold between two buys never exceed what the first of them bought. */
  lemma NeverSellsMoreThanBought(input: Input)
    requires Increasing(input.raw) && RunResult(input).Succeeded? && NoSplits(input.actions)
    ensures NeverOversold(RunResult(input).fills)
  {
    hide NeverOversold;
    var setup := Prepare(input);
    SharesAlwaysBalance(input, setup.terms, setup.cash, |input.raw|);
  }
}
