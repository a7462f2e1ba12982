/** What an order is answered, from the market data alone: the price, the greatest quantity that is allowed, and the
    reason of every refusal. */
module BacktestAnswers {
  import opened Common
  import opened RealMath
  import opened Market
  import opened Backtest
  import opened BacktestOrders
  import opened BacktestFees

  // ---------------------------------------------------------------- prices

  /** `px` is the least whole number of ticks not below `exact`; without ticks it is `exact`. */
  ghost predicate RoundedUp(px: real, exact: real, tick: real) {
    if tick > 0.0 then Whole(px, tick) && exact <= px < exact + tick else px == exact
  }

  ghost predicate RoundedDown(px: real, exact: real, tick: real) {
    if tick > 0.0 then Whole(px, tick) && exact - tick < px <= exact else px == exact
  }

  lemma PricesAreRounded(raw: seq<Bar>, i: nat, t: Terms)
    requires i < |raw|
    ensures RoundedUp(BuyPrice(raw, i, t), Times(raw[i].open, 1.0 + t.slip), t.tick)
    ensures RoundedDown(SellPrice(raw, i, t), Times(raw[i].open, 1.0 - t.slip), t.tick)
  {
    hide Whole;
    if t.tick > 0.0 {
      RoundTickIsAgainstTrader(Times(raw[i].open, 1.0 + t.slip), t.tick);
      RoundTickIsAgainstTrader(Times(raw[i].open, 1.0 - t.slip), t.tick);
    }
  }

  // ---------------------------------------------------------------- days without trade

  /** The day has no price, or the day before it no volume. */
  predicate NoMarket(raw: seq<Bar>, i: nat)
    requires i < |raw|
  {
    raw[i].open <= 0.0 || i == 0 || raw[i - 1].volume == 0.0
  }

  /** The day opened at or past its limit and never came back from there. */
  predicate Locked(raw: seq<Bar>, i: nat, t: Terms, side: Side)
    requires 0 < i < |raw|
  {
    var prev := raw[i - 1].close;
    && t.limit.Some? && prev > 0.0
    && match side
       case Buy => raw[i].open >= prev + Times(prev, t.limit.value) && raw[i].high == raw[i].open
       case Sell => raw[i].open <= prev - Times(prev, t.limit.value) && raw[i].low == raw[i].open
  }

  lemma LockedIffBlocked(raw: seq<Bar>, i: nat, t: Terms, side: Side)
    requires 0 < i < |raw|
    ensures LimitBlocked(raw, i, t, side) <==> Locked(raw, i, t, side)
  {
    if t.limit.Some? {
      Distribute(raw[i - 1].close, 1.0, t.limit.value);
    }
  }

  /** Why the day has no market, if it has none. */
  lemma NoMarketIff(raw: seq<Bar>, i: nat, t: Terms)
    requires i < |raw|
    ensures Gate(raw, i, t) == if raw[i].open <= 0.0 then Some(NoOpen)
                               else if NoMarket(raw, i) then Some(NoVolume) else None
  {
    assert Times(0.0, t.part) == 0.0;
  }

  // ---------------------------------------------------------------- quantities

  /** The caps by the volume of the day before and of the day; a cap of zero from the day before is none. */
  ghost predicate WithinVolumes(raw: seq<Bar>, i: nat, part: real, qty: real)
    requires 0 < i < |raw|
  {
    && (Times(raw[i - 1].volume, part) != 0.0 ==> qty <= Times(raw[i - 1].volume, part))
    && qty <= Times(raw[i].volume, part)
  }

  /** Whole lots within the volume caps and not more than `most`. */
  ghost predicate Allowed(raw: seq<Bar>, i: nat, t: Terms, most: real, qty: real)
    requires 0 < i < |raw|
  {
    Whole(qty, t.lot as real) && qty <= most && WithinVolumes(raw, i, t.part, qty)
  }

  ghost predicate Greatest(raw: seq<Bar>, i: nat, t: Terms, most: real, qty: real)
    requires 0 < i < |raw|
  {
    Allowed(raw, i, t, most, qty) && forall q: real :: Allowed(raw, i, t, most, q) ==> q <= qty
  }

  /** What is whole and not more than `x` is not more than `x` rounded down to lots. */
  lemma WholeBelowFloor(q: real, x: real, lot: int)
    requires lot > 0 && Whole(q, lot as real) && q <= x
    ensures q <= FloorLot(x, lot)
  {
    var unit := lot as real;
    FloorLotIsGreatest(x, lot);
    assert FloorLot(x, lot) == Units(Over(x, unit).Floor, unit);
    var n: int :| q == Units(n, unit);
    var m := Over(x, unit).Floor;
    if n > m {
      NextUnit(m, unit);
      TimesMonotone((m + 1) as real, n as real, unit);
      assert false;
    }
  }

  /** Capping keeps the greatest whole quantity under a bound the greatest under both bounds. */
  lemma CappedIsGreatest(qty: real, cap: real, lot: int, q: real)
    requires lot > 0 && Whole(q, lot as real) && q <= qty && q <= cap
    ensures q <= Capped(qty, cap, lot)
  {
    hide FloorLot, Whole;
    WholeBelowFloor(q, cap, lot);
  }

  /** The quantity the engine arrives at from whole lots `wanted`. */
  function BothCaps(raw: seq<Bar>, i: nat, t: Terms, wanted: real): real
    requires 0 < i < |raw|
  {
    var cap := Times(raw[i - 1].volume, t.part);
    Capped(if cap != 0.0 then Capped(wanted, cap, t.lot) else wanted, Times(raw[i].volume, t.part), t.lot)
  }

  lemma BothCapsBound(raw: seq<Bar>, i: nat, t: Terms, wanted: real)
    requires 0 < i < |raw| && t.lot > 0
    ensures var r := BothCaps(raw, i, t, wanted);
            r <= wanted && WithinVolumes(raw, i, t.part, r)
              && (Whole(wanted, t.lot as real) ==> Whole(r, t.lot as real))
  {
    hide Capped, Whole;
    var cap := Times(raw[i - 1].volume, t.part);
    CappedKeepsWhole(wanted, cap, t.lot);
    CappedKeepsWhole(if cap != 0.0 then Capped(wanted, cap, t.lot) else wanted, Times(raw[i].volume, t.part), t.lot);
  }

  lemma BothCapsKeepGreatest(raw: seq<Bar>, i: nat, t: Terms, wanted: real, q: real)
    requires 0 < i < |raw| && t.lot > 0 && Whole(q, t.lot as real) && q <= wanted && WithinVolumes(raw, i, t.part, q)
    ensures q <= BothCaps(raw, i, t, wanted)
  {
    hide Capped, Whole;
    var cap := Times(raw[i - 1].volume, t.part);
    if cap != 0.0 {
      CappedIsGreatest(wanted, cap, t.lot, q);
      CappedIsGreatest(Capped(wanted, cap, t.lot), Times(raw[i].volume, t.part), t.lot, q);
    } else {
      CappedIsGreatest(wanted, Times(raw[i].volume, t.part), t.lot, q);
    }
  }

  /** Rounding down first and capping then gives the greatest allowed quantity. */
  lemma CappedFloorIsGreatest(raw: seq<Bar>, i: nat, t: Terms, most: real)
    requires 0 < i < |raw| && t.lot > 0
    ensures Greatest(raw, i, t, most, BothCaps(raw, i, t, FloorLot(most, t.lot)))
  {
    hide BothCaps, FloorLot, Whole, WithinVolumes;
    var wanted := FloorLot(most, t.lot);
    FloorLotIsGreatest(most, t.lot);
    BothCapsBound(raw, i, t, wanted);
    forall q: real | Allowed(raw, i, t, most, q) ensures q <= BothCaps(raw, i, t, wanted) {
      WholeBelowFloor(q, most, t.lot);
      BothCapsKeepGreatest(raw, i, t, wanted, q);
    }
  }

  /** So does capping first and rounding down then. */
  lemma FlooredCapIsGreatest(raw: seq<Bar>, i: nat, t: Terms, most: real)
    requires 0 < i < |raw| && t.lot > 0
    ensures Greatest(raw, i, t, most, FloorLot(BothCaps(raw, i, t, most), t.lot))
  {
    hide BothCaps, FloorLot, Whole;
    var r := BothCaps(raw, i, t, most);
    BothCapsBound(raw, i, t, most);
    FloorLotIsGreatest(r, t.lot);
    forall q: real | Allowed(raw, i, t, most, q) ensures q <= FloorLot(r, t.lot) {
      BothCapsKeepGreatest(raw, i, t, most, q);
      WholeBelowFloor(q, r, t.lot);
    }
  }

  lemma GreatestIsUnique(raw: seq<Bar>, i: nat, t: Terms, most: real, p: real, q: real)
    requires 0 < i < |raw| && Greatest(raw, i, t, most, p) && Greatest(raw, i, t, most, q)
    ensures p == q
  {
    hide Allowed;
  }

  // ---------------------------------------------------------------- the answers

  /** The charges on a purchase. */
  function ChargedOn(t: Terms, notional: real): real {
    Larger(Times(notional, t.commissionRate), t.commissionMin)
    + Times(notional, t.stampBuy) + Times(notional, t.transferRate)
  }

  /** What a share costs at the rates, the minimum commission aside. */
  function PerShareCost(t: Terms, px: real): real {
    px + Times(px, t.commissionRate + t.stampBuy + t.transferRate)
  }

  /** A purchase with `budget` of `cash` at `px` takes the greatest allowed quantity the budget pays at the rates, if
      that is a lot at least and cash pays for it with the charges. */
  ghost predicate BuyAnswer(raw: seq<Bar>, i: nat, t: Terms, cash: real, budget: real, px: real, o: Outcome)
    requires i < |raw|
  {
    if raw[i].open <= 0.0 then o == Rejected(NoOpen)
    else if NoMarket(raw, i) then o == Rejected(NoVolume)
    else if Locked(raw, i, t, Buy) then o == Rejected(LimitLocked)
    else if PerShareCost(t, px) <= 0.0 then o == Rejected(BadPrice)
    else
      exists q: real :: Greatest(raw, i, t, Over(budget, PerShareCost(t, px)), q) &&
        if q < t.lot as real then o == Rejected(InsufficientCashOrLot)
        else if Times(px, q) + ChargedOn(t, Times(px, q)) > cash then o == Rejected(InsufficientCash)
        else o.Filled? && o.fill.qty == q && o.fill.price == px
  }

  /** A sale takes the greatest allowed quantity of what is sellable. */
  ghost predicate SellAnswer(raw: seq<Bar>, i: nat, t: Terms, sellable: real, px: real, o: Outcome)
    requires i < |raw|
  {
    if raw[i].open <= 0.0 then o == Rejected(NoOpen)
    else if NoMarket(raw, i) then o == Rejected(NoVolume)
    else if Locked(raw, i, t, Sell) then o == Rejected(LimitLocked)
    else
      exists q: real :: Greatest(raw, i, t, sellable, q) &&
        if q <= 0.0 then o == Rejected(NotSellable) else o.Filled? && o.fill.qty == q && o.fill.price == px
  }

  lemma ChargesAreCost(t: Terms, qty: real, px: real)
    ensures Cost(t, qty, px) == Times(px, qty) + ChargedOn(t, Times(px, qty))
  {
  }

  lemma BuyVerdictIsAnswer(frac: real, raw: seq<Bar>, i: nat, cash: real, t: Terms, px: real)
    requires i < |raw| && t.lot > 0 && px == BuyPrice(raw, i, t)
    ensures var v := BuyVerdict(frac, raw, i, cash, t);
            forall o: Outcome :: (if v.Trade? then o.Filled? && o.fill.qty == v.qty && o.fill.price == v.price
                                  else o == Rejected(v.reason)) ==>
              BuyAnswer(raw, i, t, cash, Times(cash, frac), px, o)
  {
    hide Gate, NoMarket, LimitBlocked, Locked, Greatest, Capped, FloorLot, BuyPrice, Cost, ChargedOn;
    NoMarketIff(raw, i, t);
    if raw[i].open > 0.0 && !NoMarket(raw, i) {
      assert i > 0 by { MarketNeedsYesterday(raw, i); }
      LockedIffBlocked(raw, i, t, Buy);
      Distribute(px, 1.0, t.commissionRate + t.stampBuy + t.transferRate);
      var per := PerShareCost(t, px);
      if per > 0.0 {
        var most := Over(Times(cash, frac), per);
        var q := BothCaps(raw, i, t, FloorLot(most, t.lot));
        CappedFloorIsGreatest(raw, i, t, most);
        ChargesAreCost(t, q, px);
      }
    }
  }

  lemma MarketNeedsYesterday(raw: seq<Bar>, i: nat)
    requires i < |raw| && !NoMarket(raw, i)
    ensures i > 0
  {
  }

  lemma SellVerdictIsAnswer(raw: seq<Bar>, i: nat, sellable: real, t: Terms, px: real)
    requires i < |raw| && t.lot > 0 && px == SellPrice(raw, i, t)
    ensures var v := SellVerdict(raw, i, sellable, t);
            forall o: Outcome :: (if v.Trade? then o.Filled? && o.fill.qty == v.qty && o.fill.price == v.price
                                  else o == Rejected(v.reason)) ==>
              SellAnswer(raw, i, t, sellable, px, o)
  {
    hide Gate, NoMarket, LimitBlocked, Locked, Greatest, Capped, FloorLot, SellPrice;
    NoMarketIff(raw, i, t);
    if raw[i].open > 0.0 && !NoMarket(raw, i) {
      assert i > 0 by { MarketNeedsYesterday(raw, i); }
      LockedIffBlocked(raw, i, t, Sell);
      var q := FloorLot(BothCaps(raw, i, t, sellable), t.lot);
      FlooredCapIsGreatest(raw, i, t, sellable);
    }
  }

  /** Every purchase is answered so, at the least price in whole ticks that is not below the slipped open. */
  lemma BuyIsAnswered(p: Pending, raw: seq<Bar>, i: nat, b: Book, t: Terms) returns (px: real)
    requires i < |raw| && t.lot > 0 && p.side == Buy
    ensures RoundedUp(px, Times(raw[i].open, 1.0 + t.slip), t.tick)
    ensures BuyAnswer(raw, i, t, b.cash, Times(b.cash, p.targetFrac), px, Executed(p, raw, i, b, t).order.outcome)
  {
    hide BuyVerdict, BuyAnswer, RoundedUp, BuyPrice;
    px := BuyPrice(raw, i, t);
    PricesAreRounded(raw, i, t);
    BuyVerdictIsAnswer(p.targetFrac, raw, i, b.cash, t, px);
  }

  /** What of one lot may be sold on a day. */
  function SellableOf(l: Lot, day: Day, tPlus: int): real {
    match l.available
    case On(d) => if tPlus == 0 || d <= day then l.qty else 0.0
    case After(d) => if tPlus == 0 || d < day then l.qty else 0.0
  }

  /** The day from which a lot bought on bar i may be sold: that of the bar tPlus later, or any
      later day if the data ends
      before that bar. */
  predicate Settles(raw: seq<Bar>, i: nat, tPlus: int, day: Day)
    requires i < |raw|
  {
    if tPlus <= 0 then raw[i].time <= day
    else if i + tPlus < |raw| then raw[i + tPlus].time <= day
    else raw[i].time < day
  }

  /** A filled purchase adds a lot that settles so. */
  lemma BoughtLotSettles(p: Pending, raw: seq<Bar>, i: nat, b: Book, t: Terms, day: Day)
    requires i < |raw| && p.side == Buy && Executed(p, raw, i, b, t).order.outcome.Filled?
    ensures var e := Executed(p, raw, i, b, t);
            && |e.book.lots| == |b.lots| + 1
            && SellableOf(e.book.lots[|b.lots|], day, t.tPlus) ==
               if t.tPlus == 0 || Settles(raw, i, t.tPlus, day) then e.order.outcome.fill.qty else 0.0
  {
    hide BuyVerdict, Cost;
  }

  lemma SellableOfOneLot(lots: seq<Lot>, day: Day, tPlus: int)
    requires |lots| == 1
    ensures Sellable(lots, day, tPlus) == SellableOf(lots[0], day, tPlus)
  {
    assert lots[..0] == [];
    assert SumQty(lots) == lots[0].qty;
  }

  /** Every exit of the one lot held is answered so, at the greatest price in whole ticks not above the slipped open. */
  lemma ExitIsAnswered(p: Pending, raw: seq<Bar>, i: nat, b: Book, t: Terms) returns (px: real)
    requires i < |raw| && t.lot > 0 && p.side == Sell && |b.lots| == 1
    ensures RoundedDown(px, Times(raw[i].open, 1.0 - t.slip), t.tick)
    ensures SellAnswer(raw, i, t, SellableOf(b.lots[0], raw[i].time, t.tPlus), px,
                       Executed(p, raw, i, b, t).order.outcome)
  {
    hide SellVerdict, SellAnswer, RoundedDown, SellPrice;
    px := SellPrice(raw, i, t);
    PricesAreRounded(raw, i, t);
    SellableOfOneLot(b.lots, raw[i].time, t.tPlus);
    SellVerdictIsAnswer(raw, i, Sellable(b.lots, raw[i].time, t.tPlus), t, px);
  }
}
