/** What an order that trades is worth: whole lots, whole ticks, within cash, holding and participation. */
module BacktestOrders {
  import opened RealMath
  import opened Market
  import opened Backtest

  function Units(n: int, unit: real): real {
    Times(n as real, unit)
  }

  /** `x` is a whole number of `unit`s. */
  ghost predicate Whole(x: real, unit: real) {
    exists n: int :: x == Units(n, unit)
  }

  lemma NextUnit(n: int, unit: real)
    ensures Units(n + 1, unit) == Units(n, unit) + unit
  {
  }

  lemma FloorUnits(x: real, unit: real)
    requires unit > 0.0
    ensures var r := Units(Over(x, unit).Floor, unit); r <= x < r + unit
  {
    var n := Over(x, unit).Floor;
    OverKeepsSign(x, unit);
    TimesMonotone(n as real, Over(x, unit), unit);
    TimesStrictlyMonotone(Over(x, unit), (n + 1) as real, unit);
    NextUnit(n, unit);
  }

  /** Rounding to lots gives the greatest whole number of lots that is not more. */
  lemma FloorLotIsGreatest(qty: real, lot: int)
    requires lot > 0
    ensures var r := FloorLot(qty, lot); Whole(r, lot as real) && r <= qty < r + lot as real
  {
    FloorUnits(qty, lot as real);
    assert FloorLot(qty, lot) == Units(Over(qty, lot as real).Floor, lot as real);
  }

  /** Prices are rounded to whole ticks against the trader: up when buying, down when selling, by less than a tick. */
  lemma RoundTickIsAgainstTrader(px: real, tick: real)
    requires tick > 0.0
    ensures var r := RoundTick(px, tick, Buy); Whole(r, tick) && px <= r < px + tick
    ensures var r := RoundTick(px, tick, Sell); Whole(r, tick) && px - tick < r <= px
  {
    FloorUnits(px, tick);
    assert RoundTick(px, tick, Sell) == Units(Over(px, tick).Floor, tick);
    var n := Ceil(Over(px, tick));
    assert RoundTick(px, tick, Buy) == Units(n, tick);
    CeilIsNext(Over(px, tick));
    OverKeepsSign(px, tick);
    TimesMonotone(Over(px, tick), n as real, tick);
    TimesStrictlyMonotone((n - 1) as real, Over(px, tick), tick);
    NextUnit(n - 1, tick);
  }

  lemma CeilIsNext(x: real)
    ensures (Ceil(x) - 1) as real < x <= Ceil(x) as real
  {
  }

  lemma CappedKeepsWhole(qty: real, cap: real, lot: int)
    requires lot > 0
    ensures Capped(qty, cap, lot) <= cap && Capped(qty, cap, lot) <= qty
    ensures Whole(qty, lot as real) ==> Whole(Capped(qty, cap, lot), lot as real)
  {
    FloorLotIsGreatest(cap, lot);
  }

  /** The participation caps of the previous and of the current day; a zero cap of the previous day is no cap. */
  predicate WithinParticipation(raw: seq<Bar>, i: nat, t: Terms, qty: real)
    requires i < |raw|
  {
    var cap := Times(PreviousVolume(raw, i), t.part);
    (cap != 0.0 ==> qty <= cap) && qty <= Times(raw[i].volume, t.part)
  }

  /** A purchase that trades takes whole lots, at least one, within both participation caps, at no less than the
      slipped open rounded up to ticks, and can be paid for, fees included. */
  lemma BuyIsSound(frac: real, raw: seq<Bar>, i: nat, cash: real, t: Terms)
    requires i < |raw| && t.lot > 0 && BuyVerdict(frac, raw, i, cash, t).Trade?
    ensures var v := BuyVerdict(frac, raw, i, cash, t);
            && Whole(v.qty, t.lot as real) && v.qty >= t.lot as real && WithinParticipation(raw, i, t, v.qty)
            && Cost(t, v.qty, v.price) <= cash
            && Times(raw[i].open, 1.0 + t.slip) <= v.price && (t.tick > 0.0 ==> Whole(v.price, t.tick))
            && raw[i].open > 0.0 && !LimitBlocked(raw, i, t, Buy)
  {
    var px := BuyPrice(raw, i, t);
    var denom := Times(px, 1.0 + (t.commissionRate + t.stampBuy + t.transferRate));
    var cap := Times(PreviousVolume(raw, i), t.part);
    var wanted := FloorLot(Over(Times(cash, frac), denom), t.lot);
    FloorLotIsGreatest(Over(Times(cash, frac), denom), t.lot);
    CappedKeepsWhole(wanted, cap, t.lot);
    CappedKeepsWhole(if cap != 0.0 then Capped(wanted, cap, t.lot) else wanted, Times(raw[i].volume, t.part), t.lot);
    if t.tick > 0.0 {
      RoundTickIsAgainstTrader(Times(raw[i].open, 1.0 + t.slip), t.tick);
    }
  }

  /** A sale that trades takes whole lots, no more than is sellable or the caps allow, at no more than the slipped
      open rounded down to ticks. */
  lemma SellIsSound(raw: seq<Bar>, i: nat, sellable: real, t: Terms)
    requires i < |raw| && t.lot > 0 && SellVerdict(raw, i, sellable, t).Trade?
    ensures var v := SellVerdict(raw, i, sellable, t);
            && Whole(v.qty, t.lot as real) && 0.0 < v.qty <= sellable && WithinParticipation(raw, i, t, v.qty)
            && v.price <= Times(raw[i].open, 1.0 - t.slip) && (t.tick > 0.0 ==> Whole(v.price, t.tick))
            && raw[i].open > 0.0 && !LimitBlocked(raw, i, t, Sell)
  {
    var cap := Times(PreviousVolume(raw, i), t.part);
    var q1 := if cap != 0.0 then Capped(sellable, cap, t.lot) else sellable;
    CappedKeepsWhole(sellable, cap, t.lot);
    CappedKeepsWhole(q1, Times(raw[i].volume, t.part), t.lot);
    FloorLotIsGreatest(Capped(q1, Times(raw[i].volume, t.part), t.lot), t.lot);
    if t.tick > 0.0 {
      RoundTickIsAgainstTrader(Times(raw[i].open, 1.0 - t.slip), t.tick);
    }
  }

  /** Taking a quantity from the lots takes exactly that much in all, oldest lots first. */
  lemma ReducedTakesQuantity(lots: seq<Lot>, qty: real)
    requires 0.0 <= qty <= SumQty(lots) && forall k :: 0 <= k < |lots| ==> lots[k].qty > 0.0
    ensures SumQty(Reduced(lots, qty)) == SumQty(lots) - qty
    ensures forall k :: 0 <= k < |Reduced(lots, qty)| ==> Reduced(lots, qty)[k].qty > 0.0
    ensures |Reduced(lots, qty)| <= |lots|
    ensures |Reduced(lots, qty)| > 1 ==> Reduced(lots, qty)[1..] == lots[|lots| - |Reduced(lots, qty)| + 1..]
  {
    hide Reduced, SumQty;
    ReducedSum(lots, qty);
    ReducedFromOldest(lots, qty);
  }

  lemma {:induction false} ReducedSum(lots: seq<Lot>, qty: real)
    requires 0.0 <= qty <= SumQty(lots) && forall k :: 0 <= k < |lots| ==> lots[k].qty > 0.0
    ensures SumQty(Reduced(lots, qty)) == SumQty(lots) - qty
    decreases |lots|
  {
    if lots != [] && qty > 0.0 {
      SumFromFront(lots);
      if lots[0].qty <= qty {
        ReducedSum(lots[1..], qty - lots[0].qty);
      } else {
        var first := lots[0].(qty := lots[0].qty - qty);
        SumFromFront([first] + lots[1..]);
        assert ([first] + lots[1..])[1..] == lots[1..];
      }
    }
  }

  lemma {:induction false} ReducedFromOldest(lots: seq<Lot>, qty: real)
    requires forall k :: 0 <= k < |lots| ==> lots[k].qty > 0.0
    ensures forall k :: 0 <= k < |Reduced(lots, qty)| ==> Reduced(lots, qty)[k].qty > 0.0
    ensures |Reduced(lots, qty)| <= |lots|
    ensures |Reduced(lots, qty)| > 1 ==> Reduced(lots, qty)[1..] == lots[|lots| - |Reduced(lots, qty)| + 1..]
    decreases |lots|
  {
    if lots != [] && qty > 0.0 && lots[0].qty <= qty {
      ReducedFromOldest(lots[1..], qty - lots[0].qty);
      if Reduced(lots, qty) != [] {
        TailSlices(lots, |Reduced(lots, qty)|);
      }
    }
  }

  lemma TailSlices(lots: seq<Lot>, n: nat)
    requires lots != [] && 0 < n < |lots|
    ensures lots[1..][|lots| - 1 - n + 1..] == lots[|lots| - n + 1..]
  {
  }

  lemma {:induction false} SumFromFront(lots: seq<Lot>)
    requires lots != []
    ensures SumQty(lots) == lots[0].qty + SumQty(lots[1..])
    decreases |lots|
  {
    var m := |lots| - 1;
    if m > 0 {
      SumFromFront(lots[..m]);
      assert lots[..m][1..] == lots[1..][..m - 1];
    }
  }
}
