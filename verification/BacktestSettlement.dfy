/** Settlement in the backtest: at most one lot, never sold early, never sold short. */
module BacktestSettlement {
  import opened RealMath
  import opened Market
  import opened Backtest
  import opened BacktestOrders

  /** At most one lot, of positive quantity; a pending buy meets no lot, a pending exit meets one. */
  ghost predicate OneLot(s: State) {
    && |s.book.lots| <= 1
    && (forall l :: l in s.book.lots ==> l.qty > 0.0)
    && (s.pend.Some? && s.pend.value.side == Buy ==> s.book.lots == [])
    && (s.pend.Some? && s.pend.value.side == Sell ==> |s.book.lots| == 1)
  }

  /** The fill at m is explained: a sell at bar i follows a last buy at an earlier bar b, and comes at
      least tPlus bars later unless the data ends within tPlus bars of the purchase. */
  ghost predicate SellExplained(fills: seq<Fill>, m: nat, raw: seq<Bar>, tPlus: int, n: nat, b: nat, i: nat)
    requires m < |fills|
  {
    && n < m && b < i < |raw|
    && fills[n].id == OrderId(raw[b].time, Buy) && fills[m].id == OrderId(raw[i].time, Sell)
    && (forall x :: n < x < m ==> fills[x].id.side == Sell)
    && (b + tPlus <= i || b + tPlus >= |raw|)
  }

  ghost predicate FillsSettle(fills: seq<Fill>, raw: seq<Bar>, tPlus: int) {
    forall m: nat :: m < |fills| && fills[m].id.side == Sell ==>
      exists n: nat, b: nat, i: nat :: SellExplained(fills, m, raw, tPlus, n, b, i)
  }

  /** The open lot was bought at bar b by the last buy, fill n. */
  ghost predicate LotBought(s: State, raw: seq<Bar>, t: Terms, bound: nat, n: nat, b: nat)
    requires |s.book.lots| == 1
  {
    && n < |s.fills| && b < bound && b < |raw|
    && s.fills[n].id == OrderId(raw[b].time, Buy)
    && (forall x :: n < x < |s.fills| ==> s.fills[x].id.side == Sell)
    && s.book.lots[0].available == AvailableFrom(raw, b, t.tPlus)
  }

  ghost predicate Inv(s: State, raw: seq<Bar>, t: Terms, bound: nat) {
    && OneLot(s)
    && FillsSettle(s.fills, raw, t.tPlus)
    && (|s.book.lots| == 1 ==> exists n: nat, b: nat :: LotBought(s, raw, t, bound, n, b))
  }

  lemma SumOfAtMostOne(lots: seq<Lot>)
    requires |lots| <= 1
    ensures SumQty(lots) == if lots == [] then 0.0 else lots[0].qty
    ensures lots != [] ==>
              (forall day, tPlus :: Sellable(lots, day, tPlus) ==
                (if tPlus == 0 || Reached(lots[0].available, day) then lots[0].qty else 0.0))
  {
    if lots != [] {
      assert lots[..0] == [];
    }
  }

  /** Corporate actions rescale the lot and leave its dates alone. */
  lemma {:induction false} ActionsKeepOneLot(date: Day, actions: seq<CorporateAction>, n: nat, qty: real, b: Book)
    requires n <= |actions| && |b.lots| <= 1 && forall l :: l in b.lots ==> l.qty > 0.0
    ensures var after := ApplyFirst(date, actions, n, qty, b).lots;
            && |after| == |b.lots|
            && (forall l :: l in after ==> l.qty > 0.0)
            && (after != [] ==> after[0].available == b.lots[0].available)
  {
    if n > 0 {
      ActionsKeepOneLot(date, actions, n - 1, qty, b);
      var before := ApplyFirst(date, actions, n - 1, qty, b).lots;
      if before != [] {
        assert before[0] in before;
        TimesKeepsSign(before[0].qty, actions[n - 1].ratio);
      }
    }
  }

  /** With one lot held, a filled exit sells no more than the lot, on or after its available day. */
  lemma ExitSellsWhatIsSettled(p: Pending, raw: seq<Bar>, i: nat, b: Book, t: Terms)
    requires i < |raw| && t.lot > 0 && p.side == Sell && |b.lots| == 1 && b.lots[0].qty > 0.0
    ensures var e := Executed(p, raw, i, b, t);
            e.order.outcome.Filled? ==>
              && e.order.outcome.fill.id == OrderId(raw[i].time, Sell)
              && 0.0 < e.order.outcome.fill.qty <= b.lots[0].qty
              && (t.tPlus != 0 ==> Reached(b.lots[0].available, raw[i].time))
              && e.book.lots == (if e.order.outcome.fill.qty == b.lots[0].qty then []
                else [b.lots[0].(qty := b.lots[0].qty - e.order.outcome.fill.qty)])
  {
    SumOfAtMostOne(b.lots);
    hide SellVerdict;
    if SellVerdict(raw, i, Sellable(b.lots, raw[i].time, t.tPlus), t).Trade? {
      SellIsSound(raw, i, Sellable(b.lots, raw[i].time, t.tPlus), t);
    }
    var e := Executed(p, raw, i, b, t);
    if e.order.outcome.Filled? {
      var qty := e.order.outcome.fill.qty;
      assert b.lots[1..] == [];
      assert Reduced(b.lots[1..], qty - b.lots[0].qty) == [];
    }
  }

  /** A reached available day means tPlus bars have passed, or the data ends too early to tell. */
  lemma ReachedMeansSettled(raw: seq<Bar>, b: nat, i: nat, tPlus: int)
    requires Increasing(raw) && b < i < |raw|
    requires tPlus != 0 ==> Reached(AvailableFrom(raw, b, tPlus), raw[i].time)
    ensures b + tPlus <= i || b + tPlus >= |raw|
  {
    if tPlus > 0 && b + tPlus < |raw| && i < b + tPlus {
      assert false;
    }
  }

  lemma OldFillsStaySettled(fills: seq<Fill>, fill: Fill, raw: seq<Bar>, tPlus: int)
    requires FillsSettle(fills, raw, tPlus)
    ensures forall m: nat :: m < |fills| && fills[m].id.side == Sell ==>
              exists n: nat, b: nat, i: nat :: SellExplained(fills + [fill], m, raw, tPlus, n, b, i)
  {
    forall m: nat | m < |fills| && fills[m].id.side == Sell
      ensures exists n: nat, b: nat, i: nat :: SellExplained(fills + [fill], m, raw, tPlus, n, b, i)
    {
      var n: nat, b: nat, i: nat :| SellExplained(fills, m, raw, tPlus, n, b, i);
      assert SellExplained(fills + [fill], m, raw, tPlus, n, b, i);
    }
  }

  lemma BuyKeepsInv(s: State, raw: seq<Bar>, i: nat, t: Terms)
    requires i < |raw| && t.lot > 0 && Inv(s, raw, t, i) && s.pend.Some? && s.pend.value.side == Buy
    ensures Inv(Settled(s, raw, i, t), raw, t, i + 1)
  {
    var after := Settled(s, raw, i, t);
    if after.fills != s.fills {
      var fill := after.fills[|s.fills|];
      OldFillsStaySettled(s.fills, fill, raw, t.tPlus);
      assert after.fills == s.fills + [fill];
      assert LotBought(after, raw, t, i + 1, |s.fills|, i);
    }
  }

  lemma SellKeepsInv(s: State, raw: seq<Bar>, i: nat, t: Terms)
    requires Increasing(raw) && i < |raw| && t.lot > 0 && Inv(s, raw, t, i) && s.pend.Some? && s.pend.value.side == Sell
    ensures Inv(Settled(s, raw, i, t), raw, t, i + 1)
  {
    hide Executed, SellVerdict, Sellable;
    var after := Settled(s, raw, i, t);
    var n: nat, b: nat :| LotBought(s, raw, t, i, n, b);
    assert s.book.lots[0] in s.book.lots;
    ExitSellsWhatIsSettled(s.pend.value, raw, i, s.book, t);
    if after.fills != s.fills {
      var fill := after.fills[|s.fills|];
      assert after.fills == s.fills + [fill];
      OldFillsStaySettled(s.fills, fill, raw, t.tPlus);
      ReachedMeansSettled(raw, b, i, t.tPlus);
      assert SellExplained(after.fills, |s.fills|, raw, t.tPlus, n, b, i);
    }
    if after.book.lots != [] {
      assert LotBought(after, raw, t, i + 1, n, b);
    }
  }

  lemma MorningKeepsInv(input: Input, t: Terms, s: State, i: nat)
    requires i < |input.raw| && Inv(s, input.raw, t, i)
    ensures Inv(Morning(input, s, i), input.raw, t, i)
  {
    ActionsKeepOneLot(input.raw[i].time, input.actions, |input.actions|, SumQty(s.book.lots), s.book);
    var after := Morning(input, s, i);
    if |s.book.lots| == 1 {
      var n: nat, b: nat :| LotBought(s, input.raw, t, i, n, b);
      assert LotBought(after, input.raw, t, i, n, b);
    }
  }

  lemma SettlingKeepsInv(s: State, raw: seq<Bar>, i: nat, t: Terms)
    requires Increasing(raw) && i < |raw| && t.lot > 0 && Inv(s, raw, t, i)
    ensures Inv(Settled(s, raw, i, t), raw, t, i + 1)
  {
    if s.pend.None? {
      LaterBoundKeepsInv(s, s, raw, t, i);
    } else if s.pend.value.side == Buy {
      BuyKeepsInv(s, raw, i, t);
    } else {
      SellKeepsInv(s, raw, i, t);
    }
  }

  /** Noting equity, signalling and passing time leave lots and fills as they are. */
  lemma LaterBoundKeepsInv(s: State, s': State, raw: seq<Bar>, t: Terms, i: nat)
    requires Inv(s, raw, t, i) && s'.book == s.book && s'.fills == s.fills && OneLot(s')
    ensures Inv(s', raw, t, i + 1)
  {
    if |s.book.lots| == 1 {
      var n: nat, b: nat :| LotBought(s, raw, t, i, n, b);
      assert LotBought(s', raw, t, i + 1, n, b);
    }
  }

  lemma DecisionKeepsOneLot(input: Input, s: State, sold: bool, eval: seq<Bar>, i: nat)
    requires i < |input.raw| && OneLot(s)
    ensures var after := Decided(input, s, sold, eval, i);
            OneLot(after) && after.book == s.book && after.fills == s.fills
  {
    SumOfAtMostOne(s.book.lots);
    if s.book.lots != [] {
      assert s.book.lots[0] in s.book.lots;
    }
  }

  lemma DayKeepsInv(input: Input, t: Terms, s: State, i: nat)
    requires Increasing(input.raw) && i < |input.raw| && t.lot > 0 && Inv(s, input.raw, t, i)
    ensures var p := DayStep(input, t, s, i); !p.Broken? ==> Inv(p.s, input.raw, t, i + 1)
  {
    LaterBoundKeepsInv(s, s, input.raw, t, i);
    MorningKeepsInv(input, t, s, i);
    var morning := Morning(input, s, i);
    SettlingKeepsInv(morning, input.raw, i, t);
    var noted := NoteEquity(Settled(morning, input.raw, i, t), input.raw[i]);
    SameLedgerKeepsInv(Settled(morning, input.raw, i, t), noted, input.raw, t, i + 1);
    var eval := EvalBars(input, i);
    var sold := SoldToday(morning, input.raw, i, t);
    DecisionKeepsOneLot(input, noted, sold, eval, i);
    SameLedgerKeepsInv(noted, Decided(input, noted, sold, eval, i), input.raw, t, i + 1);
    SameLedgerKeepsInv(s, NoteEquity(s, input.raw[i]), input.raw, t, i);
    LaterBoundKeepsInv(s, NoteEquity(s, input.raw[i]), input.raw, t, i);
  }

  lemma SameLedgerKeepsInv(s: State, s': State, raw: seq<Bar>, t: Terms, bound: nat)
    requires Inv(s, raw, t, bound) && s'.book == s.book && s'.fills == s.fills && OneLot(s')
    ensures Inv(s', raw, t, bound)
  {
    if |s.book.lots| == 1 {
      var n: nat, b: nat :| LotBought(s, raw, t, bound, n, b);
      assert LotBought(s', raw, t, bound, n, b);
    }
  }

  /** Every reachable state of the day loop satisfies the settlement invariant. */
  lemma {:induction false} SettlementHolds(input: Input, t: Terms, cash: real, n: nat)
    requires Increasing(input.raw) && n <= |input.raw| && t.lot > 0
    ensures var p := RunTo(input, t, cash, n); !p.Broken? ==> Inv(p.s, input.raw, t, n)
  {
    hide DayStep;
    if n > 0 {
      SettlementHolds(input, t, cash, n - 1);
      var p := RunTo(input, t, cash, n - 1);
      if !p.Broken? {
        StepKeepsInv(input, t, p, n - 1);
      }
    }
  }

  lemma StepKeepsInv(input: Input, t: Terms, p: Progress, i: nat)
    requires Increasing(input.raw) && i < |input.raw| && t.lot > 0 && !p.Broken? && Inv(p.s, input.raw, t, i)
    ensures var q := if p.Running? then DayStep(input, t, p.s, i) else p; !q.Broken? ==> Inv(q.s, input.raw, t, i + 1)
  {
    if p.Running? {
      DayKeepsInv(input, t, p.s, i);
    } else {
      LaterBoundKeepsInv(p.s, p.s, input.raw, t, i);
    }
  }

  /** In the result of a run with T+1 every sell comes at least one bar after the buy it closes;
      with T+N in general unless the data ends within N bars of that buy. */
  lemma SellsRespectSettlement(input: Input)
    requires Increasing(input.raw) && RunResult(input).Succeeded?
    ensures FillsSettle(RunResult(input).fills, input.raw, input.rule.tPlus)
  {
    var setup := Prepare(input);
    SettlementHolds(input, setup.terms, setup.cash, |input.raw|);
  }
}
