/**
 The simulators do not depend on the unit of account. Scaling is handled as an abstract map f with the
 laws of multiplication by a positive constant, so that no proof multiplies unknown reals by unknown reals.
 */
module BacktestScale {
  import opened Prelude
  import opened Domain
  import opened BacktestTrade
  import opened BacktestRun

  /** Multiplication by c as a map on prices. */
  function By(c: real): real -> real {
    (x: real) => c * x
  }

  /** The additive and order laws of scaling at one pair of arguments. */
  ghost predicate Law(f: real -> real, x: real, y: real) {
    && f(x - y) == f(x) - f(y)
    && f(x + y) == f(x) + f(y)
    && (f(x) <= f(y) <==> x <= y)
    && (f(x) == 0.0 <==> x == 0.0)
  }

  /** A factor moves through the map. */
  ghost predicate FactorLaw(f: real -> real, x: real, y: real) {
    f(x * y) == f(x) * y
  }

  ghost predicate IsScale(f: real -> real) {
    (forall x, y :: Law(f, x, y)) && (forall x, y :: FactorLaw(f, x, y))
  }

  lemma ByIsScale(c: real)
    requires c > 0.0
    ensures IsScale(By(c))
  {
    forall x: real, y: real ensures Law(By(c), x, y) { ByLaw(c, x, y); }
    forall x: real, y: real ensures FactorLaw(By(c), x, y) { ByFactor(c, x, y); }
  }

  lemma ByFactor(c: real, x: real, y: real)
    ensures FactorLaw(By(c), x, y)
  {
    assert c * (x * y) == c * x * y;
  }

  lemma ByLaw(c: real, x: real, y: real)
    requires c > 0.0
    ensures Law(By(c), x, y)
  {
    if x < y { MulStrict(c, x, y); }
    if y < x { MulStrict(c, y, x); }
    if x < 0.0 { MulStrict(c, x, 0.0); }
    if 0.0 < x { MulStrict(c, 0.0, x); }
  }

  function ScalePlan(p: Plan, f: real -> real): Plan {
    Plan(f(p.entry), f(p.stopDist), f(p.tpDist), f(p.trail))
  }

  function ScaleCandle(k: Candle, f: real -> real): Candle {
    k.(open := f(k.open), high := f(k.high), low := f(k.low), close := f(k.close))
  }

  function Scale(cs: seq<Candle>, f: real -> real): (ss: seq<Candle>)
    ensures |ss| == |cs| && forall i :: 0 <= i < |cs| ==> ss[i] == ScaleCandle(cs[i], f)
  {
    seq(|cs|, i requires 0 <= i < |cs| => ScaleCandle(cs[i], f))
  }

  lemma Order(f: real -> real, x: real, y: real)
    requires IsScale(f)
    ensures f(x) <= f(y) <==> x <= y
  {
    assert Law(f, x, y);
  }

  lemma Clamp(f: real -> real, x: real)
    requires IsScale(f)
    ensures f(Max(x, 0.0)) == Max(f(x), 0.0)
  {
    assert Law(f, x, 0.0) && Law(f, 0.0, x);
  }

  lemma Below(f: real -> real, price: real, d: real, stop: real)
    requires IsScale(f) && stop == Max(price - d, 0.0)
    ensures f(stop) == Max(f(price) - f(d), 0.0)
  {
    assert Law(f, price, d);
    Clamp(f, price - d);
  }

  lemma Above(f: real -> real, price: real, d: real, sum: real)
    requires IsScale(f) && sum == price + d
    ensures f(sum) == f(price) + f(d)
  {
    assert Law(f, price, d);
  }

  lemma Levels(p: Plan, f: real -> real)
    requires IsScale(f)
    ensures ScalePlan(p, f).LongStop() == f(p.LongStop()) && ScalePlan(p, f).LongTarget() == f(p.LongTarget())
    ensures ScalePlan(p, f).ShortStop() == f(p.ShortStop()) && ScalePlan(p, f).ShortTarget() == f(p.ShortTarget())
    ensures ScalePlan(p, f).trail == f(p.trail)
  {
    Below(f, p.entry, p.stopDist, p.LongStop());
    Above(f, p.entry, p.tpDist, p.LongTarget());
    Above(f, p.entry, p.stopDist, p.ShortStop());
    Below(f, p.entry, p.tpDist, p.ShortTarget());
  }

  lemma {:induction false} Extremes(p: Plan, cs: seq<Candle>, i: nat, k: nat, f: real -> real)
    requires i <= k < |cs| && IsScale(f)
    ensures HighSince(ScalePlan(p, f), Scale(cs, f), i, k) == f(HighSince(p, cs, i, k))
    ensures LowSince(ScalePlan(p, f), Scale(cs, f), i, k) == f(LowSince(p, cs, i, k))
  {
    assert Scale(cs, f)[k] == ScaleCandle(cs[k], f);
    if i == k {
      Levels(p, f);
      assert Law(f, p.LongTarget(), cs[k].high) && Law(f, cs[k].low, p.ShortTarget());
    } else {
      Extremes(p, cs, i, k - 1, f);
      assert Law(f, cs[k].high, HighSince(p, cs, i, k - 1)) && Law(f, HighSince(p, cs, i, k - 1), cs[k].high);
      assert Law(f, cs[k].low, LowSince(p, cs, i, k - 1)) && Law(f, LowSince(p, cs, i, k - 1), cs[k].low);
    }
  }

  lemma TrailStops(p: Plan, cs: seq<Candle>, i: nat, k: nat, f: real -> real)
    requires i <= k < |cs| && IsScale(f)
    ensures LongTrailStop(ScalePlan(p, f), Scale(cs, f), i, k) == f(LongTrailStop(p, cs, i, k))
    ensures ShortTrailStop(ScalePlan(p, f), Scale(cs, f), i, k) == f(ShortTrailStop(p, cs, i, k))
  {
    Levels(p, f);
    Extremes(p, cs, i, k, f);
    Below(f, HighSince(p, cs, i, k), p.trail, LongTrailStop(p, cs, i, k));
    Above(f, LowSince(p, cs, i, k), p.trail, ShortTrailStop(p, cs, i, k));
  }

  lemma LongStepScales(p: Plan, cs: seq<Candle>, e: Exit, k: nat, f: real -> real)
    requires k < |cs| && (e.Half? ==> e.bar <= k) && IsScale(f)
    ensures LongStep(ScalePlan(p, f), Scale(cs, f), e, k) == LongStep(p, cs, e, k)
  {
    var c, i := cs[k], if e.Half? then e.bar else k;
    assert Scale(cs, f)[k] == ScaleCandle(c, f);
    Levels(p, f);
    TrailStops(p, cs, i, k, f);
    Order(f, c.low, p.LongStop());
    Order(f, p.LongTarget(), c.high);
    Order(f, c.low, LongTrailStop(p, cs, i, k));
  }

  lemma {:induction false} LongExitScales(p: Plan, cs: seq<Candle>, from: nat, n: nat, f: real -> real)
    requires n <= |cs| && IsScale(f)
    ensures LongExit(ScalePlan(p, f), Scale(cs, f), from, n) == LongExit(p, cs, from, n)
  {
    if from < n {
      LongExitScales(p, cs, from, n - 1, f);
      LongStepScales(p, cs, LongExit(p, cs, from, n - 1), n - 1, f);
    }
  }

  lemma ShortStepScales(p: Plan, cs: seq<Candle>, e: Exit, k: nat, f: real -> real)
    requires k < |cs| && (e.Half? ==> e.bar <= k) && IsScale(f)
    ensures ShortStep(ScalePlan(p, f), Scale(cs, f), e, k) == ShortStep(p, cs, e, k)
  {
    var c, i := cs[k], if e.Half? then e.bar else k;
    assert Scale(cs, f)[k] == ScaleCandle(c, f);
    Levels(p, f);
    TrailStops(p, cs, i, k, f);
    Order(f, p.ShortStop(), c.high);
    Order(f, c.low, p.ShortTarget());
    Order(f, ShortTrailStop(p, cs, i, k), c.high);
  }

  lemma {:induction false} ShortExitScales(p: Plan, cs: seq<Candle>, from: nat, n: nat, f: real -> real)
    requires n <= |cs| && IsScale(f)
    ensures ShortExit(ScalePlan(p, f), Scale(cs, f), from, n) == ShortExit(p, cs, from, n)
  {
    if from < n {
      ShortExitScales(p, cs, from, n - 1, f);
      ShortStepScales(p, cs, ShortExit(p, cs, from, n - 1), n - 1, f);
    }
  }

  lemma LegScales(f: real -> real, a: real, b: real, share: real, leg: real)
    requires IsScale(f) && leg == Leg(b, a, share)
    ensures f(leg) == Leg(f(b), f(a), share)
  {
    assert Law(f, a, b);
    assert FactorLaw(f, a - b, share);
  }

  lemma TwoLegsScale(f: real -> real, a: real, b: real, c: real, d: real, total: real)
    requires IsScale(f) && total == Leg(b, a, 0.5) + Leg(d, c, 0.5)
    ensures f(total) == Leg(f(b), f(a), 0.5) + Leg(f(d), f(c), 0.5)
  {
    LegScales(f, a, b, 0.5, Leg(b, a, 0.5));
    LegScales(f, c, d, 0.5, Leg(d, c, 0.5));
    Above(f, Leg(b, a, 0.5), Leg(d, c, 0.5), total);
  }

  lemma LongPnlScales(p: Plan, cs: seq<Candle>, e: Exit, f: real -> real)
    requires 0 < |cs| && IsScale(f) && (e.Trailed? ==> e.bar <= e.last < |cs|)
    ensures LongPnl(ScalePlan(p, f), Scale(cs, f), e) == f(LongPnl(p, cs, e))
  {
    var close, pnl := cs[|cs| - 1].close, LongPnl(p, cs, e);
    assert Scale(cs, f)[|cs| - 1] == ScaleCandle(cs[|cs| - 1], f);
    Levels(p, f);
    match e {
      case Untouched => LegScales(f, close, p.entry, 1.0, pnl);
      case Stopped(_) => LegScales(f, p.LongStop(), p.entry, 1.0, pnl);
      case Half(_) => TwoLegsScale(f, p.LongTarget(), p.entry, close, p.entry, pnl);
      case Trailed(i, j) =>
        TrailStops(p, cs, i, j, f);
        TwoLegsScale(f, p.LongTarget(), p.entry, LongTrailStop(p, cs, i, j), p.entry, pnl);
    }
  }

  lemma ShortPnlScales(p: Plan, cs: seq<Candle>, e: Exit, f: real -> real)
    requires 0 < |cs| && IsScale(f) && (e.Trailed? ==> e.bar <= e.last < |cs|)
    ensures ShortPnl(ScalePlan(p, f), Scale(cs, f), e) == f(ShortPnl(p, cs, e))
  {
    var close, pnl := cs[|cs| - 1].close, ShortPnl(p, cs, e);
    assert Scale(cs, f)[|cs| - 1] == ScaleCandle(cs[|cs| - 1], f);
    Levels(p, f);
    match e {
      case Untouched => LegScales(f, p.entry, close, 1.0, pnl);
      case Stopped(_) => LegScales(f, p.entry, p.ShortStop(), 1.0, pnl);
      case Half(_) => TwoLegsScale(f, p.entry, p.ShortTarget(), p.entry, close, pnl);
      case Trailed(i, j) =>
        TrailStops(p, cs, i, j, f);
        TwoLegsScale(f, p.entry, p.ShortTarget(), p.entry, ShortTrailStop(p, cs, i, j), pnl);
    }
  }

  lemma DivUnique(n: real, d: real, q: real)
    requires d != 0.0 && q * d == n
    ensures n / d == q
  {
  }

  /** A ratio does not feel a common positive factor. */
  lemma PerUnitScales(c: real, a: real, b: real)
    requires c > 0.0
    ensures PerUnit(c * a, c * b) == PerUnit(a, b)
  {
    if b > 0.0 {
      MulStrict(c, 0.0, b);
      assert a / b * (c * b) == c * a by { assert a / b * b == a; }
      DivUnique(c * a, c * b, a / b);
    } else {
      MulMono(c, b, 0.0);
    }
  }

  lemma TradeScalesBy(p: Plan, cs: seq<Candle>, side: Side, from: nat, f: real -> real, t: Trade, t': Trade)
    requires 0 < |cs| && IsScale(f)
    requires t == TradeOn(p, cs, side, from) && t' == TradeOn(ScalePlan(p, f), Scale(cs, f), side, from)
    ensures t'.pnl == f(t.pnl) && t'.reason == t.reason
    ensures t.ret == PerUnit(t.pnl, p.entry) && t'.ret == PerUnit(f(t.pnl), f(p.entry))
  {
    if side == Sell {
      ShortExitScales(p, cs, from, |cs|, f);
      ShortPnlScales(p, cs, ShortExit(p, cs, from, |cs|), f);
    } else {
      LongExitScales(p, cs, from, |cs|, f);
      LongPnlScales(p, cs, LongExit(p, cs, from, |cs|), f);
    }
  }

  lemma TradeUnderBy(c: real, entry: real, t: Trade, t': Trade)
    requires c > 0.0 && t'.pnl == By(c)(t.pnl)
    requires t.ret == PerUnit(t.pnl, entry) && t'.ret == PerUnit(By(c)(t.pnl), By(c)(entry))
    ensures t'.pnl == c * t.pnl && t'.ret == t.ret
  {
    PerUnitScales(c, t.pnl, entry);
  }

  lemma PlanScales(c: real, entry: real, atr: real, m1: real, m2: real, m3: real)
    ensures PlanFrom(c * entry, c * atr, m1, m2, m3) == ScalePlan(PlanFrom(entry, atr, m1, m2, m3), By(c))
  {
    ByFactor(c, atr, m1);
    ByFactor(c, atr, m2);
    ByFactor(c, atr, m3);
  }

  /** Scaling prices and ATR by c > 0 scales profit by c and keeps return and reason, on both sides. */
  lemma TradeScales(cs: seq<Candle>, side: Side, from: nat, entry: real, atr: real, m1: real, m2: real, m3: real,
                    c: real, t: Trade, t': Trade)
    requires 0 < |cs| && c > 0.0
    requires t == TradeOn(PlanFrom(entry, atr, m1, m2, m3), cs, side, from)
    requires t' == TradeOn(PlanFrom(c * entry, c * atr, m1, m2, m3), Scale(cs, By(c)), side, from)
    ensures t'.pnl == c * t.pnl && t'.ret == t.ret && t'.reason == t.reason
  {
    PlanScales(c, entry, atr, m1, m2, m3);
    ByIsScale(c);
    TradeScalesBy(PlanFrom(entry, atr, m1, m2, m3), cs, side, from, By(c), t, t');
    TradeUnderBy(c, entry, t, t');
  }
}
