/** Causal forward adjustment (backtest/causal.go): a price history as it could be
    adjusted on day `asOf`, with only the corporate actions known and effective by then. */
module CausalPrices {
  import opened Market
  import opened RealMath

  /** The action was known by `asOf`, took effect by `asOf`, and after the bar at `t`. */
  predicate Active(a: CorporateAction, t: Day, asOf: Day) {
    && a.availableAt.Some? && a.availableAt.value <= asOf
    && a.effectiveAt.Some? && a.effectiveAt.value <= asOf
    && t < a.effectiveAt.value
  }

  /** The close of the last of the first `n` bars dated before `day`, or zero. */
  function LastCloseBefore(raw: seq<Bar>, n: nat, day: Day): real
    requires n <= |raw|
  {
    if n == 0 then 0.0
    else if raw[n - 1].time < day then raw[n - 1].close
    else LastCloseBefore(raw, n - 1, day)
  }

  /** What one effective action does to the price of every bar before it. */
  function PriceFactor(raw: seq<Bar>, a: CorporateAction): real {
    match a.kind
    case Split => if a.ratio > 0.0 then Over(1.0, a.ratio) else 1.0
    case CashDividend =>
      if a.effectiveAt.None? then 1.0 else
      var prev := LastCloseBefore(raw, |raw|, a.effectiveAt.value);
      if prev > a.cashAmount && prev > 0.0 then Over(prev - a.cashAmount, prev) else 1.0
    case OtherKind => 1.0
  }

  /** What one effective action does to the volume of every bar before it. */
  function VolumeFactor(a: CorporateAction): real {
    if a.kind == Split && a.ratio > 0.0 then a.ratio else 1.0
  }

  type Weight = CorporateAction -> real

  /** The price factor of `a` if it is active on the bar at `t` as of `asOf`, else one. */
  ghost function PriceAt(raw: seq<Bar>, t: Day, asOf: Day): Weight {
    a => if Active(a, t, asOf) then PriceFactor(raw, a) else 1.0
  }

  ghost function VolumeAt(t: Day, asOf: Day): Weight {
    a => if Active(a, t, asOf) then VolumeFactor(a) else 1.0
  }

  /** The price factor of `a` if it became active on the bar at `t` between `earlier` and `later`. */
  ghost function PriceBetween(raw: seq<Bar>, t: Day, earlier: Day, later: Day): Weight {
    a => if Active(a, t, later) && !Active(a, t, earlier) then PriceFactor(raw, a) else 1.0
  }

  ghost function VolumeBetween(t: Day, earlier: Day, later: Day): Weight {
    a => if Active(a, t, later) && !Active(a, t, earlier) then VolumeFactor(a) else 1.0
  }

  ghost function Product(actions: seq<CorporateAction>, f: Weight): real {
    if actions == [] then 1.0
    else Times(Product(actions[..|actions| - 1], f), f(actions[|actions| - 1]))
  }

  function Scale(b: Bar, pf: real, vf: real): Bar {
    b.(open := Times(b.open, pf), high := Times(b.high, pf), low := Times(b.low, pf), close := Times(b.close, pf),
       volume := Times(b.volume, vf))
  }

  /** The bar `b` scaled by the factors of the actions active on it. */
  ghost function Adjusted(raw: seq<Bar>, actions: seq<CorporateAction>, asOf: Day, b: Bar): Bar {
    Scale(b, Product(actions, PriceAt(raw, b.time, asOf)), Product(actions, VolumeAt(b.time, asOf)))
  }

  /** The adjusted history. */
  ghost function Causal(raw: seq<Bar>, actions: seq<CorporateAction>, asOf: Day): (out: seq<Bar>)
    ensures |out| == |raw|
    ensures forall i :: 0 <= i < |raw| ==> out[i] == Adjusted(raw, actions, asOf, raw[i])
  {
    seq(|raw|, i requires 0 <= i < |raw| => Adjusted(raw, actions, asOf, raw[i]))
  }

  // ---------------------------------------------------------------- the loops of the source

  method CloseBefore(raw: seq<Bar>, day: Day) returns (close: real)
    ensures close == LastCloseBefore(raw, |raw|, day)
    ensures (close == 0.0 && forall k :: 0 <= k < |raw| ==> day <= raw[k].time) ||
            exists k :: 0 <= k < |raw| && raw[k].time < day && close == raw[k].close &&
                        forall j :: k < j < |raw| ==> day <= raw[j].time
  {
    var i := |raw| - 1;
    while i >= 0
      invariant -1 <= i < |raw|
      invariant LastCloseBefore(raw, |raw|, day) == LastCloseBefore(raw, i + 1, day)
      invariant forall j :: i < j < |raw| ==> day <= raw[j].time
    {
      if raw[i].time < day {
        return raw[i].close;
      }
      i := i - 1;
    }
    close := 0.0;
  }

  method CausalQfq(raw: seq<Bar>, actions: seq<CorporateAction>, asOf: Day) returns (out: seq<Bar>)
    ensures out == Causal(raw, actions, asOf)
  {
    out := [];
    for i := 0 to |raw|
      invariant |out| == i
      invariant forall k :: 0 <= k < i ==> out[k] == Causal(raw, actions, asOf)[k]
    {
      var pf, vf := FactorsFor(raw, actions, raw[i], asOf);
      out := out + [Scale(raw[i], pf, vf)];
    }
  }

  /** The inner loop over the actions for the bar `b`. */
  method FactorsFor(raw: seq<Bar>, actions: seq<CorporateAction>, b: Bar, asOf: Day) returns (pf: real, vf: real)
    ensures pf == Product(actions, PriceAt(raw, b.time, asOf))
    ensures vf == Product(actions, VolumeAt(b.time, asOf))
  {
    pf, vf := 1.0, 1.0;
    ghost var price, volume := PriceAt(raw, b.time, asOf), VolumeAt(b.time, asOf);
    for n := 0 to |actions|
      invariant pf == Product(actions[..n], price)
      invariant vf == Product(actions[..n], volume)
    {
      var a := actions[n];
      ProductOfNext(actions, n, price);
      ProductOfNext(actions, n, volume);
      if a.availableAt.None? || a.availableAt.value > asOf {
        continue;
      }
      if a.effectiveAt.None? || a.effectiveAt.value > asOf {
        continue;
      }
      if b.time >= a.effectiveAt.value {
        continue;
      }
      pf, vf := ApplyFactor(raw, a, pf, vf);
    }
    assert actions[..|actions|] == actions;
  }

  /** The switch on the kind of an active action. */
  method ApplyFactor(raw: seq<Bar>, a: CorporateAction, pf: real, vf: real) returns (pf': real, vf': real)
    requires a.effectiveAt.Some?
    ensures pf' == Times(pf, PriceFactor(raw, a))
    ensures vf' == Times(vf, VolumeFactor(a))
  {
    pf', vf' := pf, vf;
    match a.kind {
      case Split =>
        var r := a.ratio;
        if r > 0.0 {
          DivideIsTimesReciprocal(pf, r);
          pf' := Over(pf, r);
          vf' := Times(vf, r);
        }
      case CashDividend =>
        var prev := CloseBefore(raw, a.effectiveAt.value);
        if prev > a.cashAmount && prev > 0.0 {
          pf' := Times(pf, Over(prev - a.cashAmount, prev));
        }
      case OtherKind =>
    }
  }

  lemma ProductOfNext(actions: seq<CorporateAction>, n: nat, f: Weight)
    requires n < |actions|
    ensures Product(actions[..n + 1], f) == Times(Product(actions[..n], f), f(actions[n]))
  {
    assert actions[..n + 1][..n] == actions[..n];
  }

  lemma ScaleTwice(b: Bar, p: real, v: real, q: real, w: real)
    ensures Scale(Scale(b, p, v), q, w) == Scale(b, Times(p, q), Times(v, w))
  {
    Associate(b.open, p, q);
    Associate(b.high, p, q);
    Associate(b.low, p, q);
    Associate(b.close, p, q);
    Associate(b.volume, v, w);
  }

  // ---------------------------------------------------------------- order of the actions

  lemma {:induction false} TakeOut(actions: seq<CorporateAction>, f: Weight, j: nat)
    requires j < |actions|
    ensures Product(actions, f) == Times(Product(actions[..j] + actions[j + 1..], f), f(actions[j]))
  {
    var m := |actions| - 1;
    var rest := actions[..j] + actions[j + 1..];
    if j == m {
      assert rest == actions[..m];
    } else {
      var front := actions[..m];
      TakeOut(front, f, j);
      assert rest[..m - 1] == front[..j] + front[j + 1..];
      assert rest[m - 1] == actions[m];
      Swap(Product(rest[..m - 1], f), f(actions[j]), f(actions[m]));
    }
  }

  /** The last element of `p` occurs in every rearrangement `q` of it; without it they are still rearrangements. */
  lemma TakeOutLast(p: seq<CorporateAction>, q: seq<CorporateAction>) returns (j: nat)
    requires multiset(p) == multiset(q) && p != []
    ensures j < |q| && q[j] == p[|p| - 1]
    ensures multiset(p[..|p| - 1]) == multiset(q[..j] + q[j + 1..])
  {
    var m := |p| - 1;
    assert p == p[..m] + [p[m]];
    assert p[m] in multiset(q);
    j :| 0 <= j < |q| && q[j] == p[m];
    assert q == q[..j] + [q[j]] + q[j + 1..];
    assert multiset(q[..j] + q[j + 1..]) == multiset(q) - multiset{q[j]};
    assert multiset(p[..m]) == multiset(p) - multiset{p[m]};
  }

  lemma {:induction false} ProductIgnoresOrder(p: seq<CorporateAction>, q: seq<CorporateAction>, f: Weight)
    requires multiset(p) == multiset(q)
    ensures Product(p, f) == Product(q, f)
    decreases |p|
  {
    if p == [] {
      assert |multiset(q)| == 0;
    } else {
      var j := TakeOutLast(p, q);
      ProductIgnoresOrder(p[..|p| - 1], q[..j] + q[j + 1..], f);
      TakeOut(q, f, j);
    }
  }

  /** The adjusted history does not depend on the order in which the actions are listed. */
  lemma CausalIgnoresActionOrder(raw: seq<Bar>, p: seq<CorporateAction>, q: seq<CorporateAction>, asOf: Day)
    requires multiset(p) == multiset(q)
    ensures Causal(raw, p, asOf) == Causal(raw, q, asOf)
  {
    forall i | 0 <= i < |raw| ensures Causal(raw, p, asOf)[i] == Causal(raw, q, asOf)[i] {
      ProductIgnoresOrder(p, q, PriceAt(raw, raw[i].time, asOf));
      ProductIgnoresOrder(p, q, VolumeAt(raw[i].time, asOf));
    }
  }

  // ---------------------------------------------------------------- two as-of days

  /** Bars dated on or after `day` do not matter to the close before `day`. */
  lemma {:induction false} CloseBeforeIgnoresLaterBars(raw: seq<Bar>, n: nat, m: nat, day: Day)
    requires n <= m <= |raw|
    requires forall k :: n <= k < m ==> day <= raw[k].time
    ensures LastCloseBefore(raw, m, day) == LastCloseBefore(raw[..n], n, day)
    decreases m
  {
    if n < m {
      CloseBeforeIgnoresLaterBars(raw, n, m - 1, day);
    } else if m > 0 && raw[m - 1].time >= day {
      CloseBeforeIgnoresLaterBars(raw, n - 1, m - 1, day);
      CloseBeforeIgnoresLaterBars(raw[..n], n - 1, m - 1, day);
      assert raw[..n][..n - 1] == raw[..n - 1];
    }
  }

  lemma {:induction false} ProductSplits(actions: seq<CorporateAction>, f: Weight, g: Weight, h: Weight)
    requires forall a :: a in actions ==> f(a) == Times(g(a), h(a))
    ensures Product(actions, f) == Times(Product(actions, g), Product(actions, h))
    decreases |actions|
  {
    if actions != [] {
      var front, a := actions[..|actions| - 1], actions[|actions| - 1];
      ProductSplits(front, f, g, h);
      assert a in actions;
      Interchange(Product(front, g), Product(front, h), g(a), h(a));
    }
  }

  /** One action contributes at the later day, or at the earlier day, or between the two. */
  lemma ActivationsSplit(raw: seq<Bar>, a: CorporateAction, i: nat, j: nat, t: Day)
    requires Increasing(raw) && i <= j < |raw|
    ensures var t1, t2 := raw[i].time, raw[j].time;
            PriceAt(raw[..j + 1], t, t2)(a) ==
              Times(PriceAt(raw[..i + 1], t, t1)(a), PriceBetween(raw[..j + 1], t, t1, t2)(a))
  {
    var early, late := raw[..i + 1], raw[..j + 1];
    if Active(a, t, raw[i].time) {
      CloseBeforeIgnoresLaterBars(late, i + 1, j + 1, a.effectiveAt.value);
      assert late[..i + 1] == early;
      assert PriceFactor(early, a) == PriceFactor(late, a);
    }
  }

  /** The engine adjusts `raw[..i + 1]` as of `raw[i].time` on day i. Between two such days
      i <= j every bar of the first history is rescaled by exactly the factors of the actions
      that became known and effective in between and take effect after that bar. */
  lemma AsOfConsistency(raw: seq<Bar>, actions: seq<CorporateAction>, i: nat, j: nat, b: nat)
    requires Increasing(raw) && b <= i <= j < |raw|
    ensures var t1, t2, t := raw[i].time, raw[j].time, raw[b].time;
            Causal(raw[..j + 1], actions, t2)[b] ==
            Scale(Causal(raw[..i + 1], actions, t1)[b],
                  Product(actions, PriceBetween(raw[..j + 1], t, t1, t2)),
                  Product(actions, VolumeBetween(t, t1, t2)))
  {
    assert raw[..i + 1][b] == raw[..j + 1][b] == raw[b];
    AdjustAgain(raw, actions, i, j, raw[b]);
  }

  lemma AdjustAgain(raw: seq<Bar>, actions: seq<CorporateAction>, i: nat, j: nat, b: Bar)
    requires Increasing(raw) && i <= j < |raw|
    ensures var t1, t2 := raw[i].time, raw[j].time;
            Adjusted(raw[..j + 1], actions, t2, b) ==
            Scale(Adjusted(raw[..i + 1], actions, t1, b),
                  Product(actions, PriceBetween(raw[..j + 1], b.time, t1, t2)),
                  Product(actions, VolumeBetween(b.time, t1, t2)))
  {
    var t1, t2, t := raw[i].time, raw[j].time, b.time;
    PriceFactorsSplit(raw, actions, i, j, t);
    VolumeFactorsSplit(actions, t, t1, t2);
    ScaleTwice(b, Product(actions, PriceAt(raw[..i + 1], t, t1)), Product(actions, VolumeAt(t, t1)),
      Product(actions, PriceBetween(raw[..j + 1], t, t1, t2)), Product(actions, VolumeBetween(t, t1, t2)));
  }

  lemma PriceFactorsSplit(raw: seq<Bar>, actions: seq<CorporateAction>, i: nat, j: nat, t: Day)
    requires Increasing(raw) && i <= j < |raw|
    ensures var t1, t2 := raw[i].time, raw[j].time;
            Product(actions, PriceAt(raw[..j + 1], t, t2)) ==
            Times(Product(actions, PriceAt(raw[..i + 1], t, t1)),
              Product(actions, PriceBetween(raw[..j + 1], t, t1, t2)))
  {
    var t1, t2 := raw[i].time, raw[j].time;
    var f, g, h := PriceAt(raw[..j + 1], t, t2), PriceAt(raw[..i + 1], t, t1), PriceBetween(raw[..j + 1], t, t1, t2);
    forall a | a in actions ensures f(a) == Times(g(a), h(a)) {
      ActivationsSplit(raw, a, i, j, t);
    }
    ProductSplits(actions, f, g, h);
  }

  lemma VolumeFactorsSplit(actions: seq<CorporateAction>, t: Day, t1: Day, t2: Day)
    requires t1 <= t2
    ensures Product(actions, VolumeAt(t, t2)) ==
            Times(Product(actions, VolumeAt(t, t1)), Product(actions, VolumeBetween(t, t1, t2)))
  {
    ProductSplits(actions, VolumeAt(t, t2), VolumeAt(t, t1), VolumeBetween(t, t1, t2));
  }

  // ---------------------------------------------------------------- splits

  lemma {:induction false} ReciprocalWeightsCancel(actions: seq<CorporateAction>, f: Weight, g: Weight)
    requires forall a :: a in actions ==> Times(f(a), g(a)) == 1.0
    ensures Times(Product(actions, f), Product(actions, g)) == 1.0
    decreases |actions|
  {
    if actions != [] {
      var front, a := actions[..|actions| - 1], actions[|actions| - 1];
      ReciprocalWeightsCancel(front, f, g);
      assert a in actions;
      Interchange(Product(front, f), Product(front, g), f(a), g(a));
    }
  }

  lemma SplitIsReciprocal(raw: seq<Bar>, a: CorporateAction, t: Day, asOf: Day)
    requires a.kind != CashDividend
    ensures Times(PriceAt(raw, t, asOf)(a), VolumeAt(t, asOf)(a)) == 1.0
  {
  }

  datatype PriceField = Open | High | Low | Close

  function Price(b: Bar, f: PriceField): real {
    match f
    case Open => b.open
    case High => b.high
    case Low => b.low
    case Close => b.close
  }

  lemma ScaleKeepsTradedValue(b: Bar, p: real, v: real, f: PriceField)
    requires Times(p, v) == 1.0
    ensures Times(Price(Scale(b, p, v), f), Scale(b, p, v).volume) == Times(Price(b, f), b.volume)
  {
    Interchange(Price(b, f), b.volume, p, v);
  }

  /** With splits only, the traded value price * volume of every bar is unchanged, at each of its four prices. */
  lemma SplitsKeepTradedValue(raw: seq<Bar>, actions: seq<CorporateAction>, asOf: Day, i: nat, f: PriceField)
    requires i < |raw|
    requires forall a :: a in actions ==> a.kind != CashDividend
    ensures var out := Causal(raw, actions, asOf)[i];
            Times(Price(out, f), out.volume) == Times(Price(raw[i], f), raw[i].volume)
  {
    var price, volume := PriceAt(raw, raw[i].time, asOf), VolumeAt(raw[i].time, asOf);
    forall a | a in actions ensures Times(price(a), volume(a)) == 1.0 {
      SplitIsReciprocal(raw, a, raw[i].time, asOf);
    }
    ReciprocalWeightsCancel(actions, price, volume);
    ScaleKeepsTradedValue(raw[i], Product(actions, price), Product(actions, volume), f);
  }
}
