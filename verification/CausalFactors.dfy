/** What one corporate action does to the adjusted history, said of the history's own bars. */
module CausalFactors {
  import opened RealMath
  import opened Market
  import opened CausalPrices

  /** The action is known and has taken effect by `asOf`, after the bar at `t`. */
  predicate Affects(a: CorporateAction, t: Day, asOf: Day) {
    match (a.availableAt, a.effectiveAt)
    case (Some(known), Some(effective)) => known <= asOf && t < effective <= asOf
    case _ => false
  }

  /** Bar k is the last one before `day`. */
  ghost predicate LastBefore(raw: seq<Bar>, k: nat, day: Day) {
    k < |raw| && raw[k].time < day && forall j :: k < j < |raw| ==> day <= raw[j].time
  }

  /** Each price of `after` is the price of `before` times x / y. */
  ghost predicate PricesScaled(before: Bar, after: Bar, x: real, y: real) {
    forall f: PriceField :: Times(Price(after, f), y) == Times(Price(before, f), x)
  }

  /** What `a` makes of a bar it affects, bar k being the last before it takes effect: a dividend below that bar's close
      takes its share off the prices, a split moves prices and volume, anything else does nothing. */
  ghost predicate AffectedAs(raw: seq<Bar>, a: CorporateAction, k: nat, before: Bar, after: Bar)
    requires k < |raw|
  {
    var close := raw[k].close;
    match a.kind
    case CashDividend =>
      if a.cashAmount < close && 0.0 < close then
        PricesScaled(before, after, close - a.cashAmount, close) && after.volume == before.volume
      else after == before
    case Split =>
      if 0.0 < a.ratio then
        PricesScaled(before, after, 1.0, a.ratio) && after.volume == Times(before.volume, a.ratio)
      else after == before
    case OtherKind => after == before
  }

  lemma ProductWithOne(p: seq<CorporateAction>, a: CorporateAction, f: Weight)
    ensures Product(p + [a], f) == Times(Product(p, f), f(a))
  {
    assert (p + [a])[..|p|] == p;
  }

  lemma AdjustedWithOne(raw: seq<Bar>, p: seq<CorporateAction>, a: CorporateAction, asOf: Day, b: Bar)
    ensures Adjusted(raw, p + [a], asOf, b) ==
            Scale(Adjusted(raw, p, asOf, b), PriceAt(raw, b.time, asOf)(a), VolumeAt(b.time, asOf)(a))
  {
    var f, g := PriceAt(raw, b.time, asOf), VolumeAt(b.time, asOf);
    ProductWithOne(p, a, f);
    ProductWithOne(p, a, g);
    ScaleTwice(b, Product(p, f), Product(p, g), f(a), g(a));
  }

  lemma ScaleByOne(b: Bar)
    ensures Scale(b, 1.0, 1.0) == b
  {
  }

  /** Scaling by the quotient x / y. */
  lemma ScaledByQuotient(b: Bar, x: real, y: real, v: real)
    requires y != 0.0
    ensures PricesScaled(b, Scale(b, Over(x, y), v), x, y)
  {
    forall f: PriceField ensures Times(Price(Scale(b, Over(x, y), v), f), y) == Times(Price(b, f), x) {
      Associate(Price(b, f), Over(x, y), y);
      assert Times(Over(x, y), y) == x;
    }
  }

  lemma {:induction false} LastCloseIs(raw: seq<Bar>, n: nat, k: nat, day: Day)
    requires LastBefore(raw, k, day) && k < n <= |raw|
    ensures LastCloseBefore(raw, n, day) == raw[k].close
    decreases n
  {
    if n - 1 > k {
      LastCloseIs(raw, n - 1, k, day);
    }
  }

  lemma FactorsAre(raw: seq<Bar>, a: CorporateAction, asOf: Day, k: nat, t: Day, before: Bar)
    requires Affects(a, t, asOf) && LastBefore(raw, k, a.effectiveAt.value)
    ensures AffectedAs(raw, a, k, before, Scale(before, PriceAt(raw, t, asOf)(a), VolumeAt(t, asOf)(a)))
  {
    hide LastCloseBefore, PricesScaled, Scale;
    LastCloseIs(raw, |raw|, k, a.effectiveAt.value);
    ScaleByOne(before);
    match a.kind {
      case CashDividend =>
        var close := raw[k].close;
        if a.cashAmount < close && 0.0 < close {
          ScaledByQuotient(before, close - a.cashAmount, close, 1.0);
          VolumeByOne(before, Over(close - a.cashAmount, close));
        }
      case Split =>
        if 0.0 < a.ratio {
          ScaledByQuotient(before, 1.0, a.ratio, a.ratio);
          VolumeScaled(before, Over(1.0, a.ratio), a.ratio);
        }
      case OtherKind =>
    }
  }

  lemma VolumeScaled(b: Bar, p: real, v: real)
    ensures Scale(b, p, v).volume == Times(b.volume, v)
  {
  }

  lemma VolumeByOne(b: Bar, p: real)
    ensures Scale(b, p, 1.0).volume == b.volume
  {
  }

  /** Adding one action to a list, at any place, rescales exactly the bars it affects, as its kind says. */
  lemma OneMoreAction(raw: seq<Bar>, p: seq<CorporateAction>, q: seq<CorporateAction>, a: CorporateAction, asOf: Day,
                      i: nat, k: nat)
    requires multiset(q) == multiset(p) + multiset{a} && i < |raw|
    requires Affects(a, raw[i].time, asOf) ==> LastBefore(raw, k, a.effectiveAt.value)
    ensures var before, after := Causal(raw, p, asOf)[i], Causal(raw, q, asOf)[i];
            if Affects(a, raw[i].time, asOf) then AffectedAs(raw, a, k, before, after) else after == before
  {
    hide AffectedAs, LastBefore, Adjusted, Scale;
    assert multiset(p + [a]) == multiset(q);
    CausalIgnoresActionOrder(raw, q, p + [a], asOf);
    AdjustedWithOne(raw, p, a, asOf, raw[i]);
    var before := Adjusted(raw, p, asOf, raw[i]);
    if Affects(a, raw[i].time, asOf) {
      FactorsAre(raw, a, asOf, k, raw[i].time, before);
    } else {
      ScaleByOne(before);
    }
  }

  lemma UnadjustedIsRaw(raw: seq<Bar>, asOf: Day, i: nat)
    requires i < |raw|
    ensures Causal(raw, [], asOf)[i] == raw[i]
  {
    ScaleByOne(raw[i]);
  }

  /** A dividend alone takes itself off the last close before it takes effect, and its share off all earlier prices; the
      bars from then on, and all volumes, stay. */
  lemma OneDividend(raw: seq<Bar>, a: CorporateAction, asOf: Day, k: nat)
    requires a.kind == CashDividend && a.effectiveAt.Some? && LastBefore(raw, k, a.effectiveAt.value)
    requires Affects(a, raw[k].time, asOf) && a.cashAmount < raw[k].close && 0.0 < raw[k].close
    ensures var out := Causal(raw, [a], asOf);
            && out[k].close == raw[k].close - a.cashAmount
            && forall i :: 0 <= i < |raw| ==>
                 if raw[i].time < a.effectiveAt.value then
                   PricesScaled(raw[i], out[i], raw[k].close - a.cashAmount, raw[k].close)
                   && out[i].volume == raw[i].volume
                 else out[i] == raw[i]
  {
    LastIsBefore(raw, k, a.effectiveAt.value);
    hide Causal, PricesScaled, LastBefore;
    var out := Causal(raw, [a], asOf);
    var x, y := raw[k].close - a.cashAmount, raw[k].close;
    forall i | 0 <= i < |raw|
      ensures if raw[i].time < a.effectiveAt.value then
                PricesScaled(raw[i], out[i], x, y) && out[i].volume == raw[i].volume
              else out[i] == raw[i]
    {
      OneMoreAction(raw, [], [a], a, asOf, i, k);
      UnadjustedIsRaw(raw, asOf, i);
    }
    CloseScaled(raw[k], out[k], x, y);
  }

  lemma LastIsBefore(raw: seq<Bar>, k: nat, day: Day)
    requires LastBefore(raw, k, day)
    ensures k < |raw| && raw[k].time < day
  {
  }

  lemma CloseScaled(b: Bar, after: Bar, x: real, y: real)
    requires PricesScaled(b, after, x, y) && y == b.close > 0.0
    ensures after.close == x
  {
    assert Times(Price(after, Close), y) == Times(Price(b, Close), x);
    assert after.close * y == y * x;
    Cancel(after.close, x, y);
  }

  lemma Cancel(p: real, q: real, y: real)
    requires p * y == y * q && y > 0.0
    ensures p == q
  {
    assert (p - q) * y == 0.0;
  }
}
