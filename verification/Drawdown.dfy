/** Drawdown of an equity curve: the single pass of noteEquity and metrics
    (backtest/engine.go) against the definition by pairs of points. */
module Drawdown {
  import opened RealMath

  /** The equity at point i of a curve: point 0 is the initial cash. */
  function Level(initial: real, curve: seq<real>, i: nat): real
    requires i <= |curve|
  {
    if i == 0 then initial else curve[i - 1]
  }

  /** The running peak after n points. */
  function Peak(initial: real, curve: seq<real>, n: nat): real
    requires n <= |curve|
  {
    if n == 0 then initial
    else
      var before := Peak(initial, curve, n - 1);
      if curve[n - 1] > before then curve[n - 1] else before
  }

  /** The drawdown noted beside one point. */
  function Noted(peak: real, level: real): real {
    if peak > 0.0 then Over(peak - level, peak) else 0.0
  }

  /** The relative fall from point i to point j. */
  function Fall(initial: real, curve: seq<real>, i: nat, j: nat): real
    requires i <= |curve| && j <= |curve| && Level(initial, curve, i) != 0.0
  {
    Over(Level(initial, curve, i) - Level(initial, curve, j), Level(initial, curve, i))
  }

  /** `m` is the worst relative fall between two points in order of time. */
  ghost predicate WorstFall(initial: real, curve: seq<real>, m: real) {
    && (forall i: nat, j: nat :: i <= j <= |curve| && Level(initial, curve, i) > 0.0 ==>
      Fall(initial, curve, i, j) <= m)
    && (exists i: nat, j: nat :: i <= j <= |curve| && Level(initial, curve, i) > 0.0 && Fall(initial, curve, i, j) == m)
  }

  /** Every row holds the drawdown from the running peak. */
  ghost predicate NotedAlong(initial: real, curve: seq<real>, rows: seq<real>) {
    |rows| == |curve| && forall k :: 0 <= k < |rows| ==> rows[k] == Noted(Peak(initial, curve, k + 1), curve[k])
  }

  function MaxOf(rows: seq<real>, n: nat): real
    requires n <= |rows|
  {
    if n == 0 then 0.0
    else
      var before := MaxOf(rows, n - 1);
      if rows[n - 1] > before then rows[n - 1] else before
  }

  method MaxDrawdown(rows: seq<real>) returns (m: real)
    ensures m == MaxOf(rows, |rows|)
    ensures m >= 0.0 && forall k :: 0 <= k < |rows| ==> rows[k] <= m
    ensures m == 0.0 || m in rows
  {
    m := 0.0;
    for k := 0 to |rows|
      invariant m == MaxOf(rows, k) && m >= 0.0
      invariant forall j :: 0 <= j < k ==> rows[j] <= m
      invariant m == 0.0 || m in rows
    {
      if rows[k] > m {
        m := rows[k];
      }
    }
  }

  /** The peak is one of the levels so far and none is above it. */
  lemma {:induction false} PeakIsHighest(initial: real, curve: seq<real>, n: nat) returns (at: nat)
    requires n <= |curve|
    ensures at <= n && Level(initial, curve, at) == Peak(initial, curve, n)
    ensures forall i: nat :: i <= n ==> Level(initial, curve, i) <= Peak(initial, curve, n)
  {
    if n == 0 {
      at := 0;
    } else {
      at := PeakIsHighest(initial, curve, n - 1);
      if curve[n - 1] > Peak(initial, curve, n - 1) {
        at := n;
      }
    }
  }

  /** A fall to the same non-negative level is worse from a higher start. */
  lemma HigherStartFallsFurther(low: real, high: real, level: real)
    requires 0.0 < low <= high && level >= 0.0
    ensures 0.0 <= Over(level, high) <= Over(level, low)
    ensures Over(low - level, low) == 1.0 - Over(level, low)
    ensures Over(high - level, high) == 1.0 - Over(level, high)
  {
    OneMinus(level, low);
    OneMinus(level, high);
    LargerDivisor(low, high, level);
  }

  lemma LargerDivisor(low: real, high: real, level: real)
    requires 0.0 < low <= high && level >= 0.0
    ensures 0.0 <= Over(level, high) <= Over(level, low)
  {
    var x, y := level / high, level / low;
    assert x * high == level && y * low == level;
    if x > y {
      TimesMonotone(low, high, y);
      assert false;
    }
  }

  lemma {:induction false} MaxOfIsMax(rows: seq<real>, n: nat)
    requires n <= |rows|
    ensures MaxOf(rows, n) >= 0.0
    ensures forall k :: 0 <= k < n ==> rows[k] <= MaxOf(rows, n)
    ensures MaxOf(rows, n) == 0.0 || exists k :: 0 <= k < n && rows[k] == MaxOf(rows, n)
  {
    if n > 0 {
      MaxOfIsMax(rows, n - 1);
    }
  }

  lemma NotedIsAFall(initial: real, curve: seq<real>, j: nat) returns (at: nat)
    requires 0 < j <= |curve| && initial > 0.0
    ensures at <= j && Level(initial, curve, at) > 0.0
    ensures Fall(initial, curve, at, j) == Noted(Peak(initial, curve, j), Level(initial, curve, j))
  {
    at := PeakIsHighest(initial, curve, j);
    assert Level(initial, curve, 0) <= Peak(initial, curve, j);
  }

  lemma NoFallExceedsNoted(initial: real, curve: seq<real>, i: nat, j: nat)
    requires i <= j <= |curve| && Level(initial, curve, i) > 0.0 && Level(initial, curve, j) >= 0.0
    ensures Fall(initial, curve, i, j) <= Noted(Peak(initial, curve, j), Level(initial, curve, j)) <= 1.0
  {
    var _ := PeakIsHighest(initial, curve, j);
    HigherStartFallsFurther(Level(initial, curve, i), Peak(initial, curve, j), Level(initial, curve, j));
  }

  /** On a curve without negative equity the single pass finds the worst fall, and it lies in [0, 1]. */
  lemma SinglePassIsWorstFall(initial: real, curve: seq<real>, rows: seq<real>)
    requires initial > 0.0 && NotedAlong(initial, curve, rows)
    requires forall k :: 0 <= k < |curve| ==> curve[k] >= 0.0
    ensures WorstFall(initial, curve, MaxOf(rows, |rows|))
    ensures 0.0 <= MaxOf(rows, |rows|) <= 1.0
  {
    var m := MaxOf(rows, |rows|);
    MaxOfIsMax(rows, |rows|);
    forall i: nat, j: nat | i <= j <= |curve| && Level(initial, curve, i) > 0.0
      ensures Fall(initial, curve, i, j) <= m
    {
      if j > 0 {
        NoFallExceedsNoted(initial, curve, i, j);
        assert rows[j - 1] <= m;
      }
    }
    if m == 0.0 {
      assert Fall(initial, curve, 0, 0) == m;
    } else {
      var k :| 0 <= k < |rows| && rows[k] == m;
      var at := NotedIsAFall(initial, curve, k + 1);
      assert Fall(initial, curve, at, k + 1) == m;
      NoFallExceedsNoted(initial, curve, at, k + 1);
    }
  }

  /** The reported drawdown stays within the whole exactly when no equity value is negative. */
  lemma AtMostWholeIffNoDebt(initial: real, curve: seq<real>, rows: seq<real>)
    requires initial > 0.0 && NotedAlong(initial, curve, rows)
    ensures MaxOf(rows, |rows|) <= 1.0 <==> forall k :: 0 <= k < |curve| ==> curve[k] >= 0.0
  {
    MaxOfIsMax(rows, |rows|);
    forall k | 0 <= k < |rows| ensures rows[k] <= 1.0 <==> curve[k] >= 0.0 {
      var _ := PeakIsHighest(initial, curve, k + 1);
      assert Level(initial, curve, 0) <= Peak(initial, curve, k + 1);
      NotedWithinWhole(Peak(initial, curve, k + 1), curve[k]);
    }
  }

  lemma NotedWithinWhole(peak: real, level: real)
    requires peak > 0.0
    ensures Noted(peak, level) <= 1.0 <==> level >= 0.0
  {
    var x := Over(peak - level, peak);
    QuotientTimesDivisor(peak - level, peak);
    hide Over, Times;
    assert Times(1.0, peak) == peak by { TimesOne(peak); }
    if x <= 1.0 {
      TimesMonotone(x, 1.0, peak);
    } else {
      TimesStrictlyMonotone(1.0, x, peak);
    }
  }

  lemma QuotientTimesDivisor(x: real, y: real)
    requires y > 0.0
    ensures Times(Over(x, y), y) == x
  {
  }

  lemma TimesOne(x: real)
    ensures Times(1.0, x) == x
  {
  }

  /** The single pass finds a worst fall within the whole exactly when no equity value is negative. */
  lemma WorstFallWithinWholeIff(initial: real, curve: seq<real>, rows: seq<real>)
    requires initial > 0.0 && NotedAlong(initial, curve, rows)
    ensures WorstFall(initial, curve, MaxOf(rows, |rows|)) && MaxOf(rows, |rows|) <= 1.0 <==>
            forall k :: 0 <= k < |curve| ==> curve[k] >= 0.0
  {
    hide WorstFall;
    AtMostWholeIffNoDebt(initial, curve, rows);
    if forall k :: 0 <= k < |curve| ==> curve[k] >= 0.0 {
      SinglePassIsWorstFall(initial, curve, rows);
    }
  }

  /** With negative equity the running peak is not the worst start: 25, 1, -4.5 notes 29.5/25 but fell by 5.5. */
  lemma NegativeEquityHidesAFall(curve: seq<real>, rows: seq<real>)
    requires curve == [25.0, 1.0, -4.5] && NotedAlong(25.0, curve, rows)
    ensures !WorstFall(25.0, curve, MaxOf(rows, |rows|))
  {
    assert Peak(25.0, curve, 1) == 25.0 && Peak(25.0, curve, 2) == 25.0 && Peak(25.0, curve, 3) == 25.0;
    assert rows[0] == 0.0 && rows[1] == 0.96 && rows[2] == 1.18;
    assert MaxOf(rows, 1) == 0.0 && MaxOf(rows, 2) == 0.96 && MaxOf(rows, 3) == 1.18;
    assert Fall(25.0, curve, 2, 3) == 5.5;
  }
}
