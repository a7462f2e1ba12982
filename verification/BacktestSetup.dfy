/** Which backtests are refused, with which code, and the terms the others run under. */
module BacktestSetup {
  import opened Common
  import opened RealMath
  import opened Backtest

  /** There are bars, all of them sane, and as many signal bars if any are given. */
  ghost predicate HistoryFits(input: Input) {
    && input.raw != []
    && (forall b :: b in input.raw ==> b.low <= b.high && 0.0 <= b.volume)
    && (input.signal == [] || |input.signal| == |input.raw|)
  }

  /** Re-basing needs to know when each action became known. */
  ghost predicate ActionsAreKnown(input: Input) {
    input.causal ==> forall a :: a in input.actions ==> a.availableAt.Some?
  }

  predicate RuleIsComplete(r: Rule) {
    0 < r.lotSize && r.tick.Some? && r.commissionRate.Some?
  }

  /** Slippage in hundredths of a percent, ten if none is given; one percent of the volume if no
      cap is given; everything
      else as the rule has it. */
  ghost predicate TermsOf(t: Terms, input: Input) {
    var r := input.rule;
    && Times(t.slip, 10000.0) == (if input.config.slippageBps.Some? then input.config.slippageBps.value else 10.0)
    && t.part == (if input.config.participationCap.Some? then input.config.participationCap.value else 0.01)
    && t.lot == r.lotSize && Some(t.tick) == r.tick && t.limit == r.limit && t.tPlus == r.tPlus
    && Some(t.commissionRate) == r.commissionRate && t.commissionMin == r.commissionMin
    && t.stampBuy == r.stampBuy && t.stampSell == r.stampSell && t.transferRate == r.transferRate
  }

  /** The refusal that comes first, if there is one. */
  ghost function Refusal(input: Input): Option<ErrorCode> {
    if !input.stock then Some(InstrumentUnsupported)
    else if !input.daily then Some(StrategyUnsupported)
    else if !HistoryFits(input) then Some(InsufficientHistory)
    else if !ActionsAreKnown(input) then Some(RuleDataIncomplete)
    else if input.config.initialCash.None? || input.config.initialCash.value <= 0.0 then Some(InvalidParam)
    else if !input.computable(if input.signal == [] then input.raw else input.signal) then Some(StrategyInvalid)
    else if !RuleIsComplete(input.rule) then Some(RuleDataIncomplete)
    else None
  }

  lemma HistoryFitsIff(input: Input)
    requires input.raw != []
    ensures HistoryFits(input) <==>
            && |SignalBars(input)| == |input.raw|
            && !exists k :: 0 <= k < |input.raw| && (input.raw[k].high < input.raw[k].low || input.raw[k].volume < 0.0)
  {
    if exists k :: 0 <= k < |input.raw| && (input.raw[k].high < input.raw[k].low || input.raw[k].volume < 0.0) {
      var k :| 0 <= k < |input.raw| && (input.raw[k].high < input.raw[k].low || input.raw[k].volume < 0.0);
      assert input.raw[k] in input.raw;
    }
  }

  lemma ActionsAreKnownIff(input: Input)
    ensures ActionsAreKnown(input) <==>
            !(input.causal && exists k :: 0 <= k < |input.actions| && input.actions[k].availableAt.None?)
  {
    if input.causal && exists k :: 0 <= k < |input.actions| && input.actions[k].availableAt.None? {
      var k :| 0 <= k < |input.actions| && input.actions[k].availableAt.None?;
      assert input.actions[k] in input.actions;
    }
  }

  lemma ResolvedTerms(input: Input)
    requires RuleIsComplete(input.rule)
    ensures TermsOf(Resolve(input.rule, input.config), input)
  {
  }

  /** A backtest fails with that refusal; without one it runs with its own cash under its own
      terms, and can fail only by
      an indicator error in the loop. */
  lemma RunIsRefusedIff(input: Input)
    ensures match Refusal(input)
            case Some(code) => RunResult(input) == Failed(code)
            case None =>
              && Prepare(input).Ready? && TermsOf(Prepare(input).terms, input)
              && Some(Prepare(input).cash) == input.config.initialCash
              && (RunResult(input).Failed? ==> RunResult(input) == Failed(StrategyInvalid))
              && (RunResult(input).Failed? <==>
                RunTo(input, Prepare(input).terms, Prepare(input).cash, |input.raw|).Broken?)
  {
    hide HistoryFits, ActionsAreKnown, TermsOf, RunTo, Resolve;
    if input.raw != [] {
      HistoryFitsIff(input);
    } else {
      assert !HistoryFits(input) by { NoHistory(input); }
    }
    ActionsAreKnownIff(input);
    if RuleIsComplete(input.rule) {
      ResolvedTerms(input);
    }
  }

  lemma NoHistory(input: Input)
    requires input.raw == []
    ensures !HistoryFits(input)
  {
  }
}
