/** T+N settlement with N >= 2 reads how much data is left: the engine looks ahead there, and only there. */
module BacktestLateSettlement {
  import opened Common
  import opened RealMath
  import opened Market
  import opened Backtest
  import opened BacktestCausality
  import opened BacktestPlainRuns

  /** A flat market: buy on bar 0, sell on bar 1, nothing rounded and nothing charged. */
  function Probe(n: int, days: nat): Input {
    Input(true, true, false,
      seq(days, d => FlatBar(d)), [], [], {},
      Rule(1, Some(1.0), None, n, Some(0.0), 0.0, 0.0, 0.0, 0.0),
      Config(None, None, Some(100.0), Some(0.0), Some(1.0)), Risk(None, None), 0, 1.0,
      bars => true, (bars, i) => i == 1, (bars, i) => i == 0)
  }

  function FlatBar(d: Day): Bar {
    Bar(d, 10.0, 10.0, 10.0, 10.0, 1000.0)
  }

  ghost predicate Flat(raw: seq<Bar>) {
    |raw| >= 3 && forall d :: 0 <= d < |raw| ==> raw[d] == FlatBar(d)
  }

  /** The terms of the probe. */
  ghost predicate Free(t: Terms, n: int) {
    t == Terms(1, 1.0, None, n, 0.0, 0.0, 0.0, 0.0, 0.0, 0.0, 1.0)
  }

  lemma ProbeIsReady(n: int, days: nat) returns (t: Terms)
    requires days > 0
    ensures Free(t, n) && Prepare(Probe(n, days)) == Ready(t, 100.0)
  {
    t := Resolve(Probe(n, days).rule, Probe(n, days).config);
  }

  lemma WholeLots()
    ensures FloorLot(10.0, 1) == 10.0 && FloorLot(0.0, 1) == 0.0
  {
  }

  lemma FlatPrices(raw: seq<Bar>, i: nat, t: Terms, n: int)
    requires Flat(raw) && 0 < i < |raw| && Free(t, n)
    ensures BuyPrice(raw, i, t) == 10.0 && SellPrice(raw, i, t) == 10.0
    ensures Gate(raw, i, t).None? && !LimitBlocked(raw, i, t, Buy) && !LimitBlocked(raw, i, t, Sell)
  {
    assert raw[i] == FlatBar(i) && raw[i - 1] == FlatBar(i - 1);
    assert Times(10.0, 1.0) == 10.0;
    assert Over(10.0, 1.0) == 10.0;
    assert Ceil(10.0) == 10 && (10.0).Floor == 10;
  }

  lemma NothingCharged(t: Terms, n: int, side: Side, notional: real)
    requires Free(t, n)
    ensures Total(FeeList(t, side, notional)) == 0.0
  {
    assert Times(notional, 0.0) == 0.0;
  }

  lemma FlatDenominator(t: Terms, n: int)
    requires Free(t, n)
    ensures Times(10.0, 1.0 + (t.commissionRate + t.stampBuy + t.transferRate)) == 10.0
    ensures Over(Times(100.0, 1.0), 10.0) == 10.0 && Times(1000.0, t.part) == 1000.0
  {
  }

  lemma FlatCost(t: Terms, n: int)
    requires Free(t, n)
    ensures Cost(t, 10.0, 10.0) == 100.0
  {
    NothingCharged(t, n, Buy, Times(10.0, 10.0));
  }

  /** A purchase meets no obstacle: what the verdict is then. */
  lemma UnhinderedBuy(frac: real, raw: seq<Bar>, i: nat, cash: real, t: Terms, denom: real, cap: real, today: real,
          wanted: real)
    requires i < |raw| && Gate(raw, i, t).None? && !LimitBlocked(raw, i, t, Buy)
    requires denom == Times(BuyPrice(raw, i, t), 1.0 + (t.commissionRate + t.stampBuy + t.transferRate)) && denom > 0.0
    requires cap == Times(PreviousVolume(raw, i), t.part) && today == Times(raw[i].volume, t.part)
    requires wanted == FloorLot(Over(Times(cash, frac), denom), t.lot) && t.lot as real <= wanted <= cap
             && wanted <= today
    requires Cost(t, wanted, BuyPrice(raw, i, t)) <= cash
    ensures BuyVerdict(frac, raw, i, cash, t) == Trade(wanted, BuyPrice(raw, i, t))
  {
  }

  lemma FlatBuy(raw: seq<Bar>, t: Terms, n: int)
    requires Flat(raw) && Free(t, n)
    ensures BuyVerdict(1.0, raw, 1, 100.0, t) == Trade(10.0, 10.0)
  {
    hide BuyVerdict, Cost, BuyPrice, Times, Over, FloorLot, LimitBlocked, Gate;
    FlatPrices(raw, 1, t, n);
    WholeLots();
    FlatDenominator(t, n);
    FlatCost(t, n);
    assert raw[0] == FlatBar(0) && raw[1] == FlatBar(1);
    UnhinderedBuy(1.0, raw, 1, 100.0, t, 10.0, 1000.0, 1000.0, 10.0);
  }

  lemma FlatSell(raw: seq<Bar>, t: Terms, n: int)
    requires Flat(raw) && Free(t, n)
    ensures SellVerdict(raw, 2, 10.0, t).Trade? && SellVerdict(raw, 2, 0.0, t) == Refuse(NotSellable)
  {
    FlatPrices(raw, 2, t, n);
    WholeLots();
    assert raw[1] == FlatBar(1) && raw[2] == FlatBar(2);
    assert Times(1000.0, 1.0) == 1000.0;
  }

  lemma ProbeDecides(n: int, days: nat, t: Terms)
    requires 3 <= days && n >= 2 && Free(t, n) && Prepare(Probe(n, days)) == Ready(t, 100.0)
    ensures Answers(Probe(n, days), 1 + n >= days)
  {
    hide BuyVerdict, SellVerdict, Prepare, RunResult;
    var input := Probe(n, days);
    FlatBuy(input.raw, t, n);
    FlatSell(input.raw, t, n);
    ThirdBarDecides(input, t, 100.0, 10.0, 10.0);
    assert input.raw[1] == FlatBar(1) && input.raw[2] == FlatBar(2);
  }

  /** The run succeeds and its second order fills, or not. */
  ghost predicate Answers(input: Input, filled: bool) {
    var r := RunResult(input); r.Succeeded? && |r.orders| >= 2 && r.orders[1].outcome.Filled? == filled
  }

  lemma ProbeCut(n: int, days: nat)
    requires 3 <= days
    ensures Cut(Probe(n, days), 3) == Probe(n, 3)
  {
    assert Probe(n, days).raw[..3] == Probe(n, 3).raw;
  }

  /** With T+n for n >= 2 there is data that, cut short after bar 2, sells a lot on bar 2 that the full data keeps. */
  lemma LateSettlementLooksAhead(n: int)
    requires n >= 2
    ensures exists input: Input, k: nat ::
            Comparable(input, k) && input.rule.tPlus == n && !PrefixOf(RunResult(Cut(input, k)), RunResult(input))
  {
    hide RunResult, Prepare;
    var input := Probe(n, n + 3);
    var t := ProbeIsReady(n, n + 3);
    var _ := ProbeIsReady(n, 3);
    ProbeDecides(n, n + 3, t);
    ProbeDecides(n, 3, t);
    ProbeCut(n, n + 3);
    DifferentOutcomes(RunResult(Probe(n, 3)), RunResult(input));
    assert Comparable(input, 3);
  }

  lemma DifferentOutcomes(p: Result, q: Result)
    requires p.Succeeded? && q.Succeeded? && |p.orders| >= 2 && |q.orders| >= 2
    requires p.orders[1].outcome.Filled? && !q.orders[1].outcome.Filled?
    ensures !PrefixOf(p, q)
  {
    assert p.orders[1] != q.orders[1];
  }

  /** The engine never looks ahead with T+n settlement. */
  ghost predicate NeverLooksAhead(n: int) {
    forall input: Input, k: nat :: Comparable(input, k) && input.rule.tPlus == n ==>
      PrefixOf(RunResult(Cut(input, k)), RunResult(input))
  }

  /** Exactly T+0 and T+1 are free of look-ahead. */
  lemma LookAheadFreeIffAtMostT1(n: int)
    ensures NeverLooksAhead(n) <==> n <= 1
  {
    if n <= 1 {
      forall input: Input, k: nat | Comparable(input, k) && input.rule.tPlus == n
        ensures PrefixOf(RunResult(Cut(input, k)), RunResult(input))
      {
        NoLookAhead(input, k);
      }
    } else {
      LateSettlementLooksAhead(n);
    }
  }
}
