/** The daily backtest engine (backtest/engine.go): its data, its step functions and its loops. */
module Backtest {
  import opened Common
  import opened RealMath
  import opened Market
  import CausalPrices
  import Drawdown

  // ---------------------------------------------------------------- data

  /** When a lot may be sold: on a listed day, or (the "+t1" mark) strictly after its purchase day. */
  datatype Available = On(day: Day) | After(day: Day)

  predicate Reached(a: Available, today: Day) {
    match a
    case On(d) => d <= today
    case After(d) => d < today
  }

  datatype Lot = Lot(qty: real, cost: real, available: Available, buyDate: Day)
  datatype Side = Buy | Sell
  datatype SignalKind = RiskExit | ExitRule | EntryRule
  datatype Signal = Signal(date: Day, kind: SignalKind)
  datatype Reason = NoOpen | NoVolume | LimitLocked | BadPrice | InsufficientCashOrLot | InsufficientCash | NotSellable

  /** An order waiting for the next open; `side == Sell` is the source's `exit`. */
  datatype Pending = Pending(side: Side, signal: Signal, reason: Option<Reason>, targetFrac: real)

  datatype Fees = Fees(commission: real, stamp: real, transfer: real)
  datatype OrderId = OrderId(date: Day, side: Side)
  datatype Fill = Fill(id: OrderId, qty: real, price: real, fees: Fees, cashDelta: real)
  datatype Order = Order(id: OrderId, signal: Signal, outcome: Outcome)
  datatype Outcome = Rejected(reason: Reason) | Filled(fill: Fill)
  datatype EquityRow = EquityRow(date: Day, cash: real, qty: real, marketValue: real, equity: real, drawdown: real)

  /** Cash, open lots and the dividend receivable. */
  datatype Book = Book(cash: real, lots: seq<Lot>, recv: real)

  /** The trading rule with every default and string resolved. */
  datatype Terms = Terms(
    lot: int, tick: real, limit: Option<real>, tPlus: int,
    commissionRate: real, commissionMin: real, stampBuy: real, stampSell: real, transferRate: real,
    slip: real, part: real)

  datatype Rule = Rule(
    lotSize: int, tick: Option<real>, limit: Option<real>, tPlus: int,
    commissionRate: Option<real>, commissionMin: real, stampBuy: real, stampSell: real, transferRate: real)

  datatype Config = Config(start: Option<Day>, end: Option<Day>, initialCash: Option<real>, slippageBps: Option<real>,
          participationCap: Option<real>)
  datatype Risk = Risk(stopLoss: Option<real>, takeProfit: Option<real>)

  /** The conditions and the indicator engine are parameters: `exit(bars, i)` and `entry(bars, i)`
      are "ready and true" on bar i, `computable(bars)` is ComputeMany without an error. */
  datatype Input = Input(
    stock: bool, daily: bool, causal: bool,
    raw: seq<Bar>, signal: seq<Bar>, actions: seq<CorporateAction>, suspended: set<Day>,
    rule: Rule, config: Config, risk: Risk, warmup: int, entryFrac: real,
    computable: seq<Bar> -> bool, exit: (seq<Bar>, nat) -> bool, entry: (seq<Bar>, nat) -> bool)

  datatype ErrorCode =
    | InstrumentUnsupported | StrategyUnsupported | InsufficientHistory
    | RuleDataIncomplete | InvalidParam | StrategyInvalid

  datatype State = State(
    book: Book, pend: Option<Pending>, peak: real,
    orders: seq<Order>, fills: seq<Fill>, equity: seq<EquityRow>, signals: seq<Signal>)

  datatype Result =
    | Failed(code: ErrorCode)
    | Succeeded(orders: seq<Order>, fills: seq<Fill>, equity: seq<EquityRow>, signals: seq<Signal>, maxDrawdown: real)

  const DEFAULT_SLIPPAGE_BPS := 10.0
  const DEFAULT_PARTICIPATION := 0.01

  // ---------------------------------------------------------------- rounding, fees, limits

  function FloorLot(qty: real, lot: int): real {
    if lot <= 0 then 0.0 else Times(Over(qty, lot as real).Floor as real, lot as real)
  }

  function Ceil(x: real): int {
    -((-x).Floor)
  }

  function RoundTick(px: real, tick: real, side: Side): real {
    if tick <= 0.0 then px
    else if side == Buy then Times(Ceil(Over(px, tick)) as real, tick)
    else Times(Over(px, tick).Floor as real, tick)
  }

  function LimitBlocked(raw: seq<Bar>, i: nat, t: Terms, side: Side): bool
    requires i < |raw|
  {
    if t.limit.None? || i == 0 || raw[i - 1].close <= 0.0 then false
    else
      var prev := raw[i - 1].close;
      if side == Buy then raw[i].open >= Times(prev, 1.0 + t.limit.value) && raw[i].high == raw[i].open
      else raw[i].open <= Times(prev, 1.0 - t.limit.value) && raw[i].low == raw[i].open
  }

  function FeeList(t: Terms, side: Side, notional: real): Fees {
    var rated := Times(notional, t.commissionRate);
    Fees(if rated < t.commissionMin then t.commissionMin else rated,
         Times(notional, if side == Buy then t.stampBuy else t.stampSell),
         Times(notional, t.transferRate))
  }

  function Total(f: Fees): real {
    f.commission + f.stamp + f.transfer
  }

  // ---------------------------------------------------------------- lots

  function SumQty(lots: seq<Lot>): real {
    if lots == [] then 0.0 else SumQty(lots[..|lots| - 1]) + lots[|lots| - 1].qty
  }

  function SumCost(lots: seq<Lot>): real {
    if lots == [] then 0.0 else SumCost(lots[..|lots| - 1]) + lots[|lots| - 1].cost
  }

  /** The quantity sellable on `today`. */
  function Sellable(lots: seq<Lot>, today: Day, tPlus: int): real {
    if tPlus == 0 then SumQty(lots)
    else if lots == [] then 0.0
    else Sellable(lots[..|lots| - 1], today, tPlus) +
         (if Reached(lots[|lots| - 1].available, today) then lots[|lots| - 1].qty else 0.0)
  }

  /** The lots left after `qty` is taken from the oldest first. */
  function Reduced(lots: seq<Lot>, qty: real): seq<Lot> {
    if lots == [] then []
    else if qty <= 0.0 then lots
    else if lots[0].qty <= qty then Reduced(lots[1..], qty - lots[0].qty)
    else [lots[0].(qty := lots[0].qty - qty)] + lots[1..]
  }

  method SumLots(lots: seq<Lot>) returns (sum: real)
    ensures sum == SumQty(lots)
  {
    sum := 0.0;
    for k := 0 to |lots|
      invariant sum == SumQty(lots[..k])
    {
      assert lots[..k + 1][..k] == lots[..k];
      sum := sum + lots[k].qty;
    }
    assert lots[..|lots|] == lots;
  }

  method SellableQty(lots: seq<Lot>, today: Day, tPlus: int) returns (sum: real)
    ensures sum == Sellable(lots, today, tPlus)
  {
    if tPlus == 0 {
      sum := SumLots(lots);
    } else {
      sum := 0.0;
      for k := 0 to |lots|
        invariant sum == Sellable(lots[..k], today, tPlus)
      {
        assert lots[..k + 1][..k] == lots[..k];
        if Reached(lots[k].available, today) {
          sum := sum + lots[k].qty;
        }
      }
      assert lots[..|lots|] == lots;
    }
  }

  method ReduceLots(lots: seq<Lot>, qty: real) returns (out: seq<Lot>)
    ensures out == Reduced(lots, qty)
  {
    hide Reduced;
    var left := qty;
    out := [];
    assert lots[0..] == lots;
    for k := 0 to |lots|
      invariant out + Reduced(lots[k..], left) == Reduced(lots, qty)
    {
      var l := lots[k];
      ReducedStep(out, lots, k, left);
      if left <= 0.0 {
        out := out + [l];
      } else if l.qty <= left {
        left := left - l.qty;
      } else {
        out := out + [l.(qty := l.qty - left)];
        left := 0.0;
      }
    }
    assert lots[|lots|..] == [];
    ReducedNothing(left);
  }

  lemma ReducedNothing(left: real)
    ensures Reduced([], left) == []
  {
  }

  lemma ReducedStep(out: seq<Lot>, lots: seq<Lot>, k: nat, left: real)
    requires k < |lots|
    ensures var l, rest := lots[k], lots[k + 1..];
            out + Reduced(lots[k..], left) ==
            if left <= 0.0 then out + [l] + Reduced(rest, left)
            else if l.qty <= left then out + Reduced(rest, left - l.qty)
            else out + [l.(qty := l.qty - left)] + Reduced(rest, 0.0)
  {
    var l, rest := lots[k], lots[k + 1..];
    assert lots[k..] == [l] + rest;
    assert Reduced(rest, 0.0) == rest;
    if left <= 0.0 {
      assert Reduced(rest, left) == rest;
    }
  }

  // ---------------------------------------------------------------- corporate actions

  function ScaledLots(lots: seq<Lot>, r: real): seq<Lot> {
    seq(|lots|, k requires 0 <= k < |lots| => lots[k].(qty := Times(lots[k].qty, r)))
  }

  /** The effect of one action on `date`; `qty` is the quantity held when the day opened. */
  function ApplyAction(date: Day, a: CorporateAction, qty: real, b: Book): Book {
    match a.kind
    case Split =>
      if a.effectiveAt == Some(date) && qty > 0.0 && a.ratio > 0.0 then b.(lots := ScaledLots(b.lots, a.ratio)) else b
    case CashDividend =>
      var accrued := b.(recv := b.recv + Accrual(date, a, qty));
      if a.payDate == Some(date) && accrued.recv > 0.0
      then accrued.(cash := accrued.cash + accrued.recv, recv := 0.0) else accrued
    case OtherKind => b
  }

  function Accrual(date: Day, a: CorporateAction, qty: real): real {
    if a.kind == CashDividend && a.recordDate == Some(date) && qty > 0.0 then Times(qty, a.cashAmount) else 0.0
  }

  /** The effect of the first n actions. */
  function ApplyFirst(date: Day, actions: seq<CorporateAction>, n: nat, qty: real, b: Book): Book
    requires n <= |actions|
  {
    if n == 0 then b else ApplyAction(date, actions[n - 1], qty, ApplyFirst(date, actions, n - 1, qty, b))
  }

  function Applied(date: Day, actions: seq<CorporateAction>, b: Book): Book {
    ApplyFirst(date, actions, |actions|, SumQty(b.lots), b)
  }

  method ApplyActions(date: Day, actions: seq<CorporateAction>, cash0: real, lots0: seq<Lot>, recv0: real)
    returns (cash: real, lots: seq<Lot>, recv: real)
    ensures Book(cash, lots, recv) == Applied(date, actions, Book(cash0, lots0, recv0))
  {
    cash, lots, recv := cash0, lots0, recv0;
    var qty := SumLots(lots);
    for n := 0 to |actions|
      invariant Book(cash, lots, recv) == ApplyFirst(date, actions, n, qty, Book(cash0, lots0, recv0))
    {
      var a := actions[n];
      match a.kind {
        case Split =>
          if a.effectiveAt == Some(date) && qty > 0.0 {
            if a.ratio > 0.0 {
              ghost var before := lots;
              for k := 0 to |lots|
                invariant |lots| == |before|
                invariant forall x :: 0 <= x < k ==> lots[x] == ScaledLots(before, a.ratio)[x]
                invariant forall x :: k <= x < |lots| ==> lots[x] == before[x]
              {
                lots := lots[k := lots[k].(qty := Times(lots[k].qty, a.ratio))];
              }
              assert lots == ScaledLots(before, a.ratio);
            }
          }
        case CashDividend =>
          if a.recordDate == Some(date) && qty > 0.0 {
            recv := recv + Times(qty, a.cashAmount);
          }
          if a.payDate == Some(date) && recv > 0.0 {
            cash := cash + recv;
            recv := 0.0;
          }
        case OtherKind =>
      }
    }
  }

  // ---------------------------------------------------------------- orders

  datatype Verdict = Refuse(reason: Reason) | Trade(qty: real, price: real)

  function PreviousVolume(raw: seq<Bar>, i: nat): real
    requires i < |raw|
  {
    if i > 0 then raw[i - 1].volume else 0.0
  }

  function Capped(qty: real, cap: real, lot: int): real {
    if qty > cap then FloorLot(cap, lot) else qty
  }

  /** The gates common to both sides, with the participation cap of the previous day. */
  function Gate(raw: seq<Bar>, i: nat, t: Terms): Option<Reason>
    requires i < |raw|
  {
    if raw[i].open <= 0.0 then Some(NoOpen)
    else if Times(PreviousVolume(raw, i), t.part) <= 0.0 && PreviousVolume(raw, i) == 0.0 then Some(NoVolume)
    else None
  }

  function BuyPrice(raw: seq<Bar>, i: nat, t: Terms): real
    requires i < |raw|
  {
    RoundTick(Times(raw[i].open, 1.0 + t.slip), t.tick, Buy)
  }

  function SellPrice(raw: seq<Bar>, i: nat, t: Terms): real
    requires i < |raw|
  {
    RoundTick(Times(raw[i].open, 1.0 - t.slip), t.tick, Sell)
  }

  function BuyVerdict(frac: real, raw: seq<Bar>, i: nat, cash: real, t: Terms): Verdict
    requires i < |raw|
  {
    var cap := Times(PreviousVolume(raw, i), t.part);
    var px := BuyPrice(raw, i, t);
    var denom := Times(px, 1.0 + (t.commissionRate + t.stampBuy + t.transferRate));
    if Gate(raw, i, t).Some? then Refuse(Gate(raw, i, t).value)
    else if LimitBlocked(raw, i, t, Buy) then Refuse(LimitLocked)
    else if denom <= 0.0 then Refuse(BadPrice)
    else
      var wanted := FloorLot(Over(Times(cash, frac), denom), t.lot);
      var qty := Capped(if cap != 0.0 then Capped(wanted, cap, t.lot) else wanted, Times(raw[i].volume, t.part), t.lot);
      if qty < t.lot as real then Refuse(InsufficientCashOrLot)
      else if Cost(t, qty, px) > cash then Refuse(InsufficientCash)
      else Trade(qty, px)
  }

  function SellVerdict(raw: seq<Bar>, i: nat, sellable: real, t: Terms): Verdict
    requires i < |raw|
  {
    var cap := Times(PreviousVolume(raw, i), t.part);
    if Gate(raw, i, t).Some? then Refuse(Gate(raw, i, t).value)
    else if LimitBlocked(raw, i, t, Sell) then Refuse(LimitLocked)
    else
      var today :=
        Capped(if cap != 0.0 then Capped(sellable, cap, t.lot) else sellable, Times(raw[i].volume, t.part), t.lot);
      var qty := FloorLot(today, t.lot);
      if qty <= 0.0 then Refuse(NotSellable) else Trade(qty, SellPrice(raw, i, t))
  }

  /** What a purchase costs, fees included. */
  function Cost(t: Terms, qty: real, px: real): real {
    Times(px, qty) + Total(FeeList(t, Buy, Times(px, qty)))
  }

  /** What a sale brings, fees deducted. */
  function Proceeds(t: Terms, qty: real, px: real): real {
    Times(px, qty) - Total(FeeList(t, Sell, Times(px, qty)))
  }

  function AvailableFrom(raw: seq<Bar>, i: nat, tPlus: int): Available
    requires i < |raw|
  {
    if tPlus > 0 && i + tPlus < |raw| then On(raw[i + tPlus].time)
    else if tPlus > 0 then After(raw[i].time)
    else On(raw[i].time)
  }

  function FillOf(side: Side, day: Bar, t: Terms, qty: real, px: real): Fill {
    Fill(OrderId(day.time, side), qty, px, FeeList(t, side, Times(px, qty)),
         if side == Buy then -Cost(t, qty, px) else Proceeds(t, qty, px))
  }

  datatype Execution = Execution(order: Order, book: Book)

  ghost function Executed(p: Pending, raw: seq<Bar>, i: nat, b: Book, t: Terms): Execution
    requires i < |raw|
  {
    var v := if p.side == Buy then BuyVerdict(p.targetFrac, raw, i, b.cash, t)
             else SellVerdict(raw, i, Sellable(b.lots, raw[i].time, t.tPlus), t);
    var id := OrderId(raw[i].time, p.side);
    match v
    case Refuse(reason) => Execution(Order(id, p.signal, Rejected(reason)), b)
    case Trade(qty, px) =>
      var fill := FillOf(p.side, raw[i], t, qty, px);
      Execution(Order(id, p.signal, Filled(fill)),
        b.(cash := b.cash + fill.cashDelta,
           lots := if p.side == Buy
                   then b.lots + [Lot(qty, Cost(t, qty, px), AvailableFrom(raw, i, t.tPlus), raw[i].time)]
                   else Reduced(b.lots, qty)))
  }

  method Execute(p: Pending, raw: seq<Bar>, i: nat, b: Book, t: Terms) returns (e: Execution)
    requires i < |raw|
    ensures e == Executed(p, raw, i, b, t)
  {
    var day := raw[i];
    var id := OrderId(day.time, p.side);
    if p.side == Buy {
      match BuyVerdict(p.targetFrac, raw, i, b.cash, t) {
        case Refuse(reason) =>
          e := Execution(Order(id, p.signal, Rejected(reason)), b);
        case Trade(qty, px) =>
          var need := Cost(t, qty, px);
          var lots := b.lots + [Lot(qty, need, AvailableFrom(raw, i, t.tPlus), day.time)];
          e := Execution(Order(id, p.signal, Filled(FillOf(Buy, day, t, qty, px))),
            b.(cash := b.cash - need, lots := lots));
      }
      return;
    }
    var sellable := SellableQty(b.lots, day.time, t.tPlus);
    match SellVerdict(raw, i, sellable, t) {
      case Refuse(reason) =>
        e := Execution(Order(id, p.signal, Rejected(reason)), b);
      case Trade(qty, px) =>
        var lots := ReduceLots(b.lots, qty);
        e := Execution(Order(id, p.signal, Filled(FillOf(Sell, day, t, qty, px))),
          b.(cash := b.cash + Proceeds(t, qty, px), lots := lots));
    }
  }

  // ---------------------------------------------------------------- one day

  /** The pending order meets the day: a filled order and a refused buy are dropped, a refused exit waits on. */
  ghost function Settled(s: State, raw: seq<Bar>, i: nat, t: Terms): State
    requires i < |raw|
  {
    if s.pend.None? then s
    else
      var p := s.pend.value;
      var e := Executed(p, raw, i, s.book, t);
      var noted := s.(orders := s.orders + [e.order]);
      match e.order.outcome
      case Filled(fill) => noted.(fills := s.fills + [fill], book := e.book, pend := None)
      case Rejected(reason) => noted.(pend := if p.side == Buy then None else Some(p.(reason := Some(reason))))
  }

  ghost function SoldToday(s: State, raw: seq<Bar>, i: nat, t: Terms): bool
    requires i < |raw|
  {
    s.pend.Some? && s.pend.value.side == Sell && Executed(s.pend.value, raw, i, s.book, t).order.outcome.Filled?
  }

  /** noteEquity: one row and the running peak. */
  function NoteEquity(s: State, day: Bar): State {
    var qty := SumQty(s.book.lots);
    var worth := Times(qty, day.close);
    var equity := s.book.cash + worth + s.book.recv;
    var peak := if equity > s.peak then equity else s.peak;
    s.(peak := peak,
       equity := s.equity + [EquityRow(day.time, s.book.cash, qty, worth, equity, Drawdown.Noted(peak, equity))])
  }

  function HitRisk(r: Risk, lots: seq<Lot>, day: Bar, recv: real): bool {
    var qty := SumQty(lots);
    var cost := SumCost(lots);
    if qty <= 0.0 || cost <= 0.0 then false
    else
      var gain := Over(Times(qty, day.close) + recv - cost, cost);
      || (r.stopLoss.Some? && gain <= -r.stopLoss.value)
      || (r.takeProfit.Some? && gain >= r.takeProfit.value)
  }

  function Signaled(s: State, date: Day, kind: SignalKind, frac: real): State {
    var signal := Signal(date, kind);
    s.(signals := s.signals + [signal],
       pend := Some(Pending(if kind == EntryRule then Buy else Sell, signal, None, frac)))
  }

  /** The decision after the close. */
  function Decided(input: Input, s: State, sold: bool, eval: seq<Bar>, i: nat): State
    requires i < |input.raw|
  {
    var day := input.raw[i];
    var qty := SumQty(s.book.lots);
    if qty > 0.0 && HitRisk(input.risk, s.book.lots, day, s.book.recv) then Signaled(s, day.time, RiskExit, 0.0)
    else if qty > 0.0 && input.exit(eval, i) then Signaled(s, day.time, ExitRule, 0.0)
    else if qty == 0.0 && !sold && input.entry(eval, i) then Signaled(s, day.time, EntryRule, input.entryFrac)
    else s
  }

  predicate Rebased(input: Input) {
    input.causal && input.actions != []
  }

  /** The series the conditions are evaluated on. */
  ghost function EvalBars(input: Input, i: nat): seq<Bar>
    requires i < |input.raw|
  {
    if Rebased(input) then CausalPrices.Causal(input.raw[..i + 1], input.actions, input.raw[i].time)
    else SignalBars(input)
  }

  function SignalBars(input: Input): seq<Bar> {
    if input.signal == [] then input.raw else input.signal
  }

  datatype Progress = Running(s: State) | Ended(s: State) | Broken

  /** The state after the day's corporate actions. */
  ghost function Morning(input: Input, s: State, i: nat): State
    requires i < |input.raw|
  {
    s.(book := Applied(input.raw[i].time, input.actions, s.book))
  }

  ghost function DayStep(input: Input, t: Terms, s: State, i: nat): Progress
    requires i < |input.raw|
  {
    var day := input.raw[i];
    if input.config.start.Some? && day.time < input.config.start.value then Running(s)
    else if input.config.end.Some? && day.time > input.config.end.value then Ended(s)
    else if day.time in input.suspended then Running(NoteEquity(s, day))
    else
      var morning := Morning(input, s, i);
      var noted := NoteEquity(Settled(morning, input.raw, i, t), day);
      if i < input.warmup then Running(noted)
      else if Rebased(input) && !input.computable(EvalBars(input, i)) then Broken
      else Running(Decided(input, noted, SoldToday(morning, input.raw, i, t), EvalBars(input, i), i))
  }

  /** The loop after n bars. */
  ghost function RunTo(input: Input, t: Terms, cash: real, n: nat): Progress
    requires n <= |input.raw|
  {
    if n == 0 then Running(InitialState(cash))
    else
      match RunTo(input, t, cash, n - 1)
      case Running(s) => DayStep(input, t, s, n - 1)
      case Ended(s) => Ended(s)
      case Broken => Broken
  }

  function InitialState(cash: real): State {
    State(Book(cash, [], 0.0), None, cash, [], [], [], [])
  }

  // ---------------------------------------------------------------- validation and the whole run

  datatype Setup = Invalid(code: ErrorCode) | Ready(terms: Terms, cash: real)

  function Prepare(input: Input): Setup {
    if !input.stock then Invalid(InstrumentUnsupported)
    else if !input.daily then Invalid(StrategyUnsupported)
    else if input.raw == [] then Invalid(InsufficientHistory)
    else if exists k :: 0 <= k < |input.raw| && (input.raw[k].high < input.raw[k].low || input.raw[k].volume < 0.0)
    then Invalid(InsufficientHistory)
    else if |SignalBars(input)| != |input.raw| then Invalid(InsufficientHistory)
    else if input.causal && (exists k :: 0 <= k < |input.actions| && input.actions[k].availableAt.None?)
    then Invalid(RuleDataIncomplete)
    else if input.config.initialCash.None? || input.config.initialCash.value <= 0.0 then Invalid(InvalidParam)
    else if !input.computable(SignalBars(input)) then Invalid(StrategyInvalid)
    else if input.rule.lotSize <= 0 then Invalid(RuleDataIncomplete)
    else if input.rule.tick.None? || input.rule.commissionRate.None? then Invalid(RuleDataIncomplete)
    else Ready(Resolve(input.rule, input.config), input.config.initialCash.value)
  }

  function Resolve(r: Rule, c: Config): Terms
    requires r.tick.Some? && r.commissionRate.Some?
  {
    Terms(r.lotSize, r.tick.value, r.limit, r.tPlus,
      r.commissionRate.value, r.commissionMin, r.stampBuy, r.stampSell, r.transferRate,
      Over(if c.slippageBps.Some? then c.slippageBps.value else DEFAULT_SLIPPAGE_BPS, 10000.0),
      if c.participationCap.Some? then c.participationCap.value else DEFAULT_PARTICIPATION)
  }

  function Drawdowns(rows: seq<EquityRow>): seq<real> {
    seq(|rows|, k requires 0 <= k < |rows| => rows[k].drawdown)
  }

  ghost function Outcomes(s: State): Result {
    Succeeded(s.orders, s.fills, s.equity, s.signals, Drawdown.MaxOf(Drawdowns(s.equity), |s.equity|))
  }

  /** What a run returns. */
  ghost function RunResult(input: Input): Result {
    match Prepare(input)
    case Invalid(code) => Failed(code)
    case Ready(t, cash) =>
      match RunTo(input, t, cash, |input.raw|)
      case Broken => Failed(StrategyInvalid)
      case Running(s) => Outcomes(s)
      case Ended(s) => Outcomes(s)
  }

  lemma {:induction false} StaysEnded(input: Input, t: Terms, cash: real, m: nat, n: nat)
    requires m <= n <= |input.raw| && !RunTo(input, t, cash, m).Running?
    ensures RunTo(input, t, cash, n) == RunTo(input, t, cash, m)
  {
    if m < n {
      StaysEnded(input, t, cash, m, n - 1);
    }
  }

  /** The body of the day loop up to the noted equity. */
  method TradeDay(input: Input, t: Terms, s0: State, i: nat) returns (s: State, soldToday: bool)
    requires i < |input.raw|
    ensures s == Settled(Morning(input, s0, i), input.raw, i, t)
    ensures soldToday == SoldToday(Morning(input, s0, i), input.raw, i, t)
  {
    soldToday := false;
    var cash, lots, recv := ApplyActions(input.raw[i].time, input.actions, s0.book.cash, s0.book.lots, s0.book.recv);
    s := s0.(book := Book(cash, lots, recv));
    if s.pend.Some? {
      var p := s.pend.value;
      var e := Execute(p, input.raw, i, s.book, t);
      s := s.(orders := s.orders + [e.order]);
      match e.order.outcome {
        case Filled(fill) =>
          s := s.(fills := s.fills + [fill], book := e.book, pend := None);
          soldToday := p.side == Sell;
        case Rejected(reason) =>
          s := s.(pend := if p.side == Buy then None else Some(p.(reason := Some(reason))));
      }
    }
  }

  /** One iteration of the day loop. */
  method RunDay(input: Input, t: Terms, s0: State, i: nat) returns (next: Progress)
    requires i < |input.raw|
    ensures next == DayStep(input, t, s0, i)
  {
    var day := input.raw[i];
    if input.config.start.Some? && day.time < input.config.start.value {
      return Running(s0);
    }
    if input.config.end.Some? && day.time > input.config.end.value {
      return Ended(s0);
    }
    if day.time in input.suspended {
      return Running(NoteEquity(s0, day));
    }
    var s, soldToday := TradeDay(input, t, s0, i);
    s := NoteEquity(s, day);
    if i < input.warmup {
      return Running(s);
    }
    var eval := SignalBars(input);
    if Rebased(input) {
      eval := CausalPrices.CausalQfq(input.raw[..i + 1], input.actions, day.time);
      if !input.computable(eval) {
        return Broken;
      }
    }
    next := Running(Decided(input, s, soldToday, eval, i));
  }

  method Run(input: Input) returns (result: Result)
    ensures result == RunResult(input)
  {
    var setup := Prepare(input);
    if setup.Invalid? {
      return Failed(setup.code);
    }
    var p := DayLoop(input, setup.terms, setup.cash);
    if p.Broken? {
      return Failed(StrategyInvalid);
    }
    var worst := Drawdown.MaxDrawdown(Drawdowns(p.s.equity));
    result := Succeeded(p.s.orders, p.s.fills, p.s.equity, p.s.signals, worst);
  }

  method DayLoop(input: Input, t: Terms, cash: real) returns (p: Progress)
    ensures p == RunTo(input, t, cash, |input.raw|)
  {
    p := Running(InitialState(cash));
    for i := 0 to |input.raw|
      invariant p.Running? && RunTo(input, t, cash, i) == p
    {
      p := RunDay(input, t, p.s, i);
      if !p.Running? {
        StaysEnded(input, t, cash, i + 1, |input.raw|);
        return;
      }
    }
  }
}
