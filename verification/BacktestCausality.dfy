/** No look-ahead: cutting the data off after k bars changes nothing about what happened before. */
module BacktestCausality {
  import opened Market
  import opened Backtest

  /** The same run on the first k bars. */
  function Cut(input: Input, k: nat): Input
    requires k <= |input.raw| && |SignalBars(input)| == |input.raw|
  {
    input.(raw := input.raw[..k], signal := if input.signal == [] then [] else input.signal[..k])
  }

  /** A condition on bar i reads the bars up to i only. */
  ghost predicate ReadsPastOnly(f: (seq<Bar>, nat) -> bool) {
    forall p: seq<Bar>, q: seq<Bar>, i: nat :: i < |p| && i < |q| && p[..i + 1] == q[..i + 1] ==> f(p, i) == f(q, i)
  }

  /** The lots agree in everything but their available day. */
  ghost predicate SameLots(p: seq<Lot>, q: seq<Lot>) {
    |p| == |q| && forall k :: 0 <= k < |p| ==> p[k] == q[k].(available := p[k].available)
  }

  /** The states agree in everything but the available days of the lots. */
  ghost predicate Similar(p: State, q: State) {
    SameLots(p.book.lots, q.book.lots) && p == q.(book := q.book.(lots := p.book.lots))
  }

  ghost predicate SimilarProgress(p: Progress, q: Progress) {
    match p
    case Broken => q.Broken?
    case Running(s) => q.Running? && Similar(s, q.s)
    case Ended(s) => q.Ended? && Similar(s, q.s)
  }

  lemma {:induction false} SameLotsSumTheSame(p: seq<Lot>, q: seq<Lot>)
    requires SameLots(p, q)
    ensures SumQty(p) == SumQty(q) && SumCost(p) == SumCost(q)
    decreases |p|
  {
    if p != [] {
      SameLotsSumTheSame(p[..|p| - 1], q[..|q| - 1]);
    }
  }

  /** On bar i < k the order executes alike on the cut data, up to the available day of a new lot. */
  lemma OrderAgrees(p: Pending, raw: seq<Bar>, k: nat, i: nat, b: Book, t: Terms)
    requires i < k <= |raw|
    ensures var full, cut := Executed(p, raw, i, b, t), Executed(p, raw[..k], i, b, t);
            && full.order == cut.order
            && full.book.cash == cut.book.cash && full.book.recv == cut.book.recv
            && SameLots(full.book.lots, cut.book.lots)
            && (i + t.tPlus < k ==> full == cut)
  {
    assert raw[..k][i] == raw[i];
    assert i > 0 ==> raw[..k][i - 1] == raw[i - 1];
  }

  lemma SettlingAgrees(s: State, raw: seq<Bar>, k: nat, i: nat, t: Terms)
    requires i < k <= |raw|
    ensures var full, cut := Settled(s, raw, i, t), Settled(s, raw[..k], i, t);
            && Similar(full, cut)
            && (i + t.tPlus < k ==> full == cut)
    ensures SoldToday(s, raw, i, t) == SoldToday(s, raw[..k], i, t)
  {
    if s.pend.Some? {
      OrderAgrees(s.pend.value, raw, k, i, s.book, t);
    }
  }

  lemma NotingKeepsSimilar(p: State, q: State, day: Bar)
    requires Similar(p, q)
    ensures Similar(NoteEquity(p, day), NoteEquity(q, day))
  {
    SameLotsSumTheSame(p.book.lots, q.book.lots);
  }

  /** The evaluation series of the cut run ends in the same bars up to i. */
  lemma EvaluationAgrees(input: Input, k: nat, i: nat, f: (seq<Bar>, nat) -> bool)
    requires |SignalBars(input)| == |input.raw| && i < k <= |input.raw| && ReadsPastOnly(f)
    ensures Rebased(input) ==> EvalBars(Cut(input, k), i) == EvalBars(input, i)
    ensures f(EvalBars(Cut(input, k), i), i) == f(EvalBars(input, i), i)
  {
    var cut := Cut(input, k);
    if Rebased(input) {
      assert cut.raw[..i + 1] == input.raw[..i + 1];
      assert cut.raw[i] == input.raw[i];
    } else {
      var full, short := SignalBars(input), SignalBars(cut);
      assert short == full[..k];
      assert short[..i + 1] == full[..i + 1];
    }
  }

  lemma DecisionAgrees(input: Input, k: nat, i: nat, p: State, q: State, sold: bool)
    requires |SignalBars(input)| == |input.raw| && i < k <= |input.raw|
    requires ReadsPastOnly(input.exit) && ReadsPastOnly(input.entry) && Similar(p, q)
    ensures Similar(Decided(input, p, sold, EvalBars(input, i), i),
                    Decided(Cut(input, k), q, sold, EvalBars(Cut(input, k), i), i))
    ensures p == q ==> Decided(input, p, sold, EvalBars(input, i), i) ==
                       Decided(Cut(input, k), q, sold, EvalBars(Cut(input, k), i), i)
  {
    hide SumQty, SumCost, EvalBars;
    SameLotsSumTheSame(p.book.lots, q.book.lots);
    EvaluationAgrees(input, k, i, input.exit);
    EvaluationAgrees(input, k, i, input.entry);
    assert Cut(input, k).raw[i] == input.raw[i];
  }

  lemma DayAgrees(input: Input, t: Terms, s: State, k: nat, i: nat)
    requires |SignalBars(input)| == |input.raw| && i < k <= |input.raw|
    requires ReadsPastOnly(input.exit) && ReadsPastOnly(input.entry)
    ensures SimilarProgress(DayStep(input, t, s, i), DayStep(Cut(input, k), t, s, i))
    ensures i + t.tPlus < k ==> DayStep(input, t, s, i) == DayStep(Cut(input, k), t, s, i)
  {
    hide Settled, SoldToday, Decided, NoteEquity, EvalBars, Applied;
    var cut := Cut(input, k);
    var day := input.raw[i];
    assert cut.raw[i] == day;
    var morning := Morning(input, s, i);
    assert Morning(cut, s, i) == morning;
    SettlingAgrees(morning, input.raw, k, i, t);
    var p, q := Settled(morning, input.raw, i, t), Settled(morning, cut.raw, i, t);
    NotingKeepsSimilar(p, q, day);
    EvaluationAgrees(input, k, i, input.exit);
    DecisionAgrees(input, k, i, NoteEquity(p, day), NoteEquity(q, day), SoldToday(morning, input.raw, i, t));
  }

  /** Before the last bar of the cut the two runs are in exactly the same state. */
  lemma {:induction false} RunsAgreeBeforeCut(input: Input, t: Terms, cash: real, k: nat, n: nat)
    requires |SignalBars(input)| == |input.raw| && n < k <= |input.raw| && t.tPlus <= 1
    requires ReadsPastOnly(input.exit) && ReadsPastOnly(input.entry)
    ensures RunTo(input, t, cash, n) == RunTo(Cut(input, k), t, cash, n)
  {
    hide DayStep, ReadsPastOnly, SimilarProgress;
    if n > 0 {
      RunsAgreeBeforeCut(input, t, cash, k, n - 1);
      var p := RunTo(input, t, cash, n - 1);
      if p.Running? {
        DayAgrees(input, t, p.s, k, n - 1);
      }
    }
  }

  lemma RunsAgreeAtCut(input: Input, t: Terms, cash: real, k: nat)
    requires |SignalBars(input)| == |input.raw| && 0 < k <= |input.raw| && t.tPlus <= 1
    requires ReadsPastOnly(input.exit) && ReadsPastOnly(input.entry)
    ensures SimilarProgress(RunTo(input, t, cash, k), RunTo(Cut(input, k), t, cash, k))
  {
    RunsAgreeBeforeCut(input, t, cash, k, k - 1);
    var p := RunTo(input, t, cash, k - 1);
    if p.Running? {
      DayAgrees(input, t, p.s, k, k - 1);
    }
  }

  /** The outputs of `p` are an initial part of those of `q`. */
  ghost predicate Extends(p: State, q: State) {
    p.orders <= q.orders && p.fills <= q.fills && p.equity <= q.equity && p.signals <= q.signals
  }

  lemma DayExtends(input: Input, t: Terms, s: State, i: nat)
    requires i < |input.raw|
    ensures var p := DayStep(input, t, s, i); !p.Broken? ==> Extends(s, p.s)
  {
    hide Executed, HitRisk, EvalBars, Applied, SumQty;
  }

  lemma {:induction false} RunExtends(input: Input, t: Terms, cash: real, m: nat, n: nat)
    requires m <= n <= |input.raw| && !RunTo(input, t, cash, n).Broken?
    ensures !RunTo(input, t, cash, m).Broken?
    ensures Extends(RunTo(input, t, cash, m).s, RunTo(input, t, cash, n).s)
  {
    if m < n {
      var p := RunTo(input, t, cash, n - 1);
      RunExtends(input, t, cash, m, n - 1);
      if p.Running? {
        DayExtends(input, t, p.s, n - 1);
      }
    }
  }

  ghost predicate PrefixOf(p: Result, q: Result) {
    && p.Succeeded? && q.Succeeded?
    && p.orders <= q.orders && p.fills <= q.fills && p.equity <= q.equity && p.signals <= q.signals
  }

  lemma CutIsReady(input: Input, k: nat)
    requires Prepare(input).Ready? && 0 < k <= |input.raw|
    requires input.computable(SignalBars(Cut(input, k)))
    ensures Prepare(Cut(input, k)) == Prepare(input)
  {
    var cut := Cut(input, k);
    forall j | 0 <= j < k ensures cut.raw[j] == input.raw[j] {}
    assert |SignalBars(cut)| == |cut.raw|;
  }

  /** The run on the first k bars is comparable: the full run succeeds and the indicators of the cut can be computed. */
  ghost predicate Comparable(input: Input, k: nat) {
    && RunResult(input).Succeeded? && 0 < k <= |input.raw|
    && ReadsPastOnly(input.exit) && ReadsPastOnly(input.entry)
    && input.computable(SignalBars(Cut(input, k)))
  }

  /** No look-ahead: the run on the first k bars succeeds too and its orders, fills, equity rows and
      signals are an initial part of the full run's, provided settlement is T+0 or T+1. */
  lemma NoLookAhead(input: Input, k: nat)
    requires Comparable(input, k) && input.rule.tPlus <= 1
    ensures PrefixOf(RunResult(Cut(input, k)), RunResult(input))
  {
    var setup := Prepare(input);
    CutIsReady(input, k);
    RunExtends(input, setup.terms, setup.cash, k, |input.raw|);
    RunsAgreeAtCut(input, setup.terms, setup.cash, k);
  }
}
