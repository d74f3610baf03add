/**
 The trade simulators of app/services/backtest_jobs.py. A simulated trade is described by *when* it
 leaves (LongExit, ShortExit); its profit and reason follow from that. The imperative simulators are
 proved to return exactly the trade so described.
 */
module BacktestTrade {
  import opened Prelude
  import opened Domain

  /** Entry price and the distances of stop, target and trailing stop, each a multiple of the ATR. */
  datatype Plan = Plan(entry: real, stopDist: real, tpDist: real, trail: real) {
    function LongStop(): real { Max(entry - stopDist, 0.0) }
    function LongTarget(): real { entry + tpDist }
    function ShortStop(): real { entry + stopDist }
    function ShortTarget(): real { Max(entry - tpDist, 0.0) }
  }

  function PlanFrom(entry: real, atr: real, stopMult: real, tpMult: real, trailMult: real): Plan {
    Plan(entry, atr * stopMult, atr * tpMult, atr * trailMult)
  }

  datatype Reason = StopLoss | TrailingStop | EndOfData

  datatype Trade = Trade(pnl: real, ret: real, reason: Reason)

  /** Where a trade stands: untouched, stopped out at a bar, half closed at a bar, or trailed out. */
  datatype Exit =
    | Untouched
    | Stopped(bar: nat)
    | Half(bar: nat)
    | Trailed(bar: nat, last: nat)

  /** `stored or current`: a stored extreme of exactly zero counts as missing. */
  function OrElse(stored: real, current: real): real {
    if stored == 0.0 then current else stored
  }

  /** What one closed leg earns on its share of the position. */
  function Leg(bought: real, sold: real, share: real): real {
    (sold - bought) * share
  }

  /** A closed part of the unit position and the price it went at. */
  datatype Fill = Fill(quantity: real, price: real)

  function Quantity(fills: seq<Fill>): real {
    if fills == [] then 0.0 else Quantity(fills[..|fills| - 1]) + fills[|fills| - 1].quantity
  }

  /** What the fills are worth against an entry price, quantity by quantity. */
  function Worth(fills: seq<Fill>, entry: real): real {
    if fills == [] then 0.0
    else
      var f := fills[|fills| - 1];
      Worth(fills[..|fills| - 1], entry) + f.quantity * (f.price - entry)
  }

  lemma FillSnoc(fills: seq<Fill>, f: Fill, entry: real)
    ensures Worth(fills + [f], entry) == Worth(fills, entry) + f.quantity * (f.price - entry)
    ensures Quantity(fills + [f]) == Quantity(fills) + f.quantity
  {
    assert (fills + [f])[..|fills|] == fills;
  }

  lemma OneFill(f: Fill, entry: real)
    ensures Worth([f], entry) == f.quantity * (f.price - entry) && Quantity([f]) == f.quantity
  {
    FillSnoc([], f, entry);
    assert [] + [f] == [f];
  }

  lemma TwoFills(f: Fill, g: Fill, entry: real)
    ensures Worth([f, g], entry) == f.quantity * (f.price - entry) + g.quantity * (g.price - entry)
    ensures Quantity([f, g]) == f.quantity + g.quantity
  {
    OneFill(f, entry);
    FillSnoc([f], g, entry);
    assert [f] + [g] == [f, g];
  }

  /* ---- Long side ---- */

  /** The tracked high of a half-closed long at bar k, when the half was taken at bar i. */
  function HighSince(p: Plan, cs: seq<Candle>, i: nat, k: nat): real
    requires i <= k < |cs|
  {
    if k == i then Max(cs[i].high, p.LongTarget())
    else Max(OrElse(HighSince(p, cs, i, k - 1), cs[k].high), cs[k].high)
  }

  function LongTrailStop(p: Plan, cs: seq<Candle>, i: nat, k: nat): real
    requires i <= k < |cs|
  {
    Max(HighSince(p, cs, i, k) - p.trail, 0.0)
  }

  /** One bar of the long exit machine. */
  function LongStep(p: Plan, cs: seq<Candle>, e: Exit, k: nat): Exit
    requires k < |cs| && (e.Half? ==> e.bar <= k)
  {
    var c := cs[k];
    match e
    case Untouched =>
      if c.low <= p.LongStop() then Stopped(k)
      else if c.high < p.LongTarget() then Untouched
      else if c.low <= LongTrailStop(p, cs, k, k) then Trailed(k, k)
      else Half(k)
    case Half(i) => if c.low <= LongTrailStop(p, cs, i, k) then Trailed(i, k) else Half(i)
    case _ => e
  }

  /** Where a long entered at bar `from` stands after the bars from..n. */
  function LongExit(p: Plan, cs: seq<Candle>, from: nat, n: nat): (e: Exit)
    requires n <= |cs|
    ensures e.Stopped? || e.Half? || e.Trailed? ==> from <= e.bar < n
    ensures e.Trailed? ==> e.bar <= e.last < n
  {
    if n <= from then Untouched else LongStep(p, cs, LongExit(p, cs, from, n - 1), n - 1)
  }

  /** Profit of a long on a unit position, given where it left. */
  function LongPnl(p: Plan, cs: seq<Candle>, e: Exit): real
    requires 0 < |cs|
    requires e.Trailed? ==> e.bar <= e.last < |cs|
  {
    var half := Leg(p.entry, p.LongTarget(), 0.5);
    match e
    case Untouched => Leg(p.entry, cs[|cs| - 1].close, 1.0)
    case Stopped(_) => Leg(p.entry, p.LongStop(), 1.0)
    case Half(_) => half + Leg(p.entry, cs[|cs| - 1].close, 0.5)
    case Trailed(i, j) => half + Leg(p.entry, LongTrailStop(p, cs, i, j), 0.5)
  }

  /** The fills of a long that left at e: the whole unit once, or two halves. */
  function LongFills(p: Plan, cs: seq<Candle>, e: Exit): seq<Fill>
    requires 0 < |cs|
    requires e.Trailed? ==> e.bar <= e.last < |cs|
  {
    var last := cs[|cs| - 1].close;
    match e
    case Untouched => [Fill(1.0, last)]
    case Stopped(_) => [Fill(1.0, Max(p.entry - p.stopDist, 0.0))]
    case Half(_) => [Fill(0.5, p.entry + p.tpDist), Fill(0.5, last)]
    case Trailed(i, j) => [Fill(0.5, p.entry + p.tpDist), Fill(0.5, Max(HighSince(p, cs, i, j) - p.trail, 0.0))]
  }

  lemma LongFillsWorth(p: Plan, cs: seq<Candle>, e: Exit)
    requires 0 < |cs| && (e.Trailed? ==> e.bar <= e.last < |cs|)
    ensures Quantity(LongFills(p, cs, e)) == 1.0
    ensures LongPnl(p, cs, e) == Worth(LongFills(p, cs, e), p.entry)
  {
    var fs := LongFills(p, cs, e);
    if e.Untouched? || e.Stopped? { OneFill(fs[0], p.entry); }
    else { TwoFills(fs[0], fs[1], p.entry); }
  }

  function ReasonOf(e: Exit): Reason {
    match e
    case Stopped(_) => StopLoss
    case Trailed(_, _) => TrailingStop
    case _ => EndOfData
  }

  function ReturnOf(p: Plan, pnl: real): real {
    PerUnit(pnl, p.entry)
  }

  function PerUnit(pnl: real, entry: real): real {
    if entry > 0.0 then pnl / entry else 0.0
  }

  lemma ReturnTimesEntry(pnl: real, entry: real)
    ensures entry > 0.0 ==> PerUnit(pnl, entry) * entry == pnl
  {
  }

  function LongTrade(p: Plan, cs: seq<Candle>, from: nat): Trade
    requires 0 < |cs|
  {
    var e := LongExit(p, cs, from, |cs|);
    var pnl := LongPnl(p, cs, e);
    Trade(pnl, ReturnOf(p, pnl), ReasonOf(e))
  }

  /** The trade is worth its fills: they close one unit, and the return is the profit per unit of entry price. */
  ghost predicate LongBooks(t: Trade, fills: seq<Fill>, entry: real) {
    Quantity(fills) == 1.0 && t.pnl == Worth(fills, entry) && (entry > 0.0 ==> t.ret * entry == t.pnl)
  }

  lemma LongSettled(t: Trade, fills: seq<Fill>, entry: real)
    requires Quantity(fills) == 1.0 && t.pnl == Worth(fills, entry) && t.ret == PerUnit(t.pnl, entry)
    ensures LongBooks(t, fills, entry)
  {
    ReturnTimesEntry(t.pnl, entry);
  }

  lemma LongTradeBooks(p: Plan, cs: seq<Candle>, from: nat)
    requires 0 < |cs|
    ensures LongBooks(LongTrade(p, cs, from), LongFills(p, cs, LongExit(p, cs, from, |cs|)), p.entry)
  {
    var e := LongExit(p, cs, from, |cs|);
    LongFillsWorth(p, cs, e);
    LongSettled(LongTrade(p, cs, from), LongFills(p, cs, e), p.entry);
  }

  /** The long simulator, bar by bar. */
  method SimulateLongTrade(candles: seq<Candle>, entryIdx: nat, entry: real, atr: real,
                           stopMult: real, tpMult: real, trailMult: real)
    returns (t: Trade, ghost fills: seq<Fill>)
    requires 0 < |candles|
    ensures t == LongTrade(PlanFrom(entry, atr, stopMult, tpMult, trailMult), candles, entryIdx)
    ensures var p := PlanFrom(entry, atr, stopMult, tpMult, trailMult); fills == LongFills(p, candles, LongExit(p, candles, entryIdx, |candles|))
    ensures LongBooks(t, fills, entry)
  {
    var p := PlanFrom(entry, atr, stopMult, tpMult, trailMult);
    var stopPrice, takeProfitPrice := p.LongStop(), p.LongTarget();
    var remaining, realized := 1.0, 0.0;
    var halfClosed := false;
    var highest, trailingStop := 0.0, 0.0;
    var reason := EndOfData;
    ghost var e := Untouched;
    var k := entryIdx;
    while k < |candles| && remaining > 0.0
      invariant entryIdx <= k && (k <= |candles| || k == entryIdx)
      invariant k <= |candles| ==> e == LongExit(p, candles, entryIdx, k)
      invariant k > |candles| ==> e == Untouched
      invariant e.Untouched? ==> !halfClosed && remaining == 1.0 && realized == 0.0
      invariant e.Half? ==> halfClosed && remaining == 0.5 && realized == Leg(p.entry, p.LongTarget(), 0.5)
      invariant e.Half? ==> highest == HighSince(p, candles, e.bar, k - 1)
      invariant e.Stopped? || e.Trailed? ==> remaining == 0.0 && realized == LongPnl(p, candles, e) && reason == ReasonOf(e)
      decreases |candles| - k
    {
      var c := candles[k];
      if !halfClosed {
        assert remaining == 1.0;
        if c.low <= stopPrice {
          realized := realized + Leg(p.entry, stopPrice, remaining);
          remaining := 0.0;
          reason := StopLoss;
        } else if c.high >= takeProfitPrice {
          var closeQty := remaining / 2.0;
          realized := realized + Leg(p.entry, takeProfitPrice, closeQty);
          remaining := remaining - closeQty;
          assert remaining == 0.5;
          halfClosed := true;
          highest := Max(c.high, takeProfitPrice);
          trailingStop := Max(highest - p.trail, 0.0);
          if c.low <= trailingStop {
            realized := realized + Leg(p.entry, trailingStop, remaining);
            remaining := 0.0;
            reason := TrailingStop;
          }
        }
      } else {
        highest := Max(OrElse(highest, c.high), c.high);
        trailingStop := Max(highest - p.trail, 0.0);
        if c.low <= trailingStop {
          realized := realized + Leg(p.entry, trailingStop, remaining);
          remaining := 0.0;
          reason := TrailingStop;
        }
      }
      k := k + 1;
      e := LongExit(p, candles, entryIdx, k);
    }
    if e.Stopped? || e.Trailed? {
      LongExitStays(p, candles, entryIdx, k, |candles|);
    }
    if remaining > 0.0 {
      realized := realized + Leg(p.entry, candles[|candles| - 1].close, remaining);
      reason := EndOfData;
    }
    t := Trade(realized, ReturnOf(p, realized), reason);
    fills := LongFills(p, candles, LongExit(p, candles, entryIdx, |candles|));
    LongTradeBooks(p, candles, entryIdx);
  }

  /** A trade that has left stays where it is, whatever bars follow. */
  lemma {:induction false} LongExitStays(p: Plan, cs: seq<Candle>, from: nat, m: nat, n: nat)
    requires m <= n <= |cs|
    requires LongExit(p, cs, from, m).Stopped? || LongExit(p, cs, from, m).Trailed?
    ensures LongExit(p, cs, from, n) == LongExit(p, cs, from, m)
  {
    if m < n { LongExitStays(p, cs, from, m, n - 1); }
  }

  /* ---- Short side ---- */

  /** The tracked low of a half-closed short at bar k, when the half was taken at bar i. */
  function LowSince(p: Plan, cs: seq<Candle>, i: nat, k: nat): real
    requires i <= k < |cs|
  {
    if k == i then Min(cs[i].low, p.ShortTarget())
    else Min(OrElse(LowSince(p, cs, i, k - 1), cs[k].low), cs[k].low)
  }

  function ShortTrailStop(p: Plan, cs: seq<Candle>, i: nat, k: nat): real
    requires i <= k < |cs|
  {
    LowSince(p, cs, i, k) + p.trail
  }

  /** One bar of the short exit machine. */
  function ShortStep(p: Plan, cs: seq<Candle>, e: Exit, k: nat): Exit
    requires k < |cs| && (e.Half? ==> e.bar <= k)
  {
    var c := cs[k];
    match e
    case Untouched =>
      if c.high >= p.ShortStop() then Stopped(k)
      else if c.low > p.ShortTarget() then Untouched
      else if c.high >= ShortTrailStop(p, cs, k, k) then Trailed(k, k)
      else Half(k)
    case Half(i) => if c.high >= ShortTrailStop(p, cs, i, k) then Trailed(i, k) else Half(i)
    case _ => e
  }

  /** Where a short entered at bar `from` stands after the bars from..n. */
  function ShortExit(p: Plan, cs: seq<Candle>, from: nat, n: nat): (e: Exit)
    requires n <= |cs|
    ensures e.Stopped? || e.Half? || e.Trailed? ==> from <= e.bar < n
    ensures e.Trailed? ==> e.bar <= e.last < n
  {
    if n <= from then Untouched else ShortStep(p, cs, ShortExit(p, cs, from, n - 1), n - 1)
  }

  /** Profit of a short on a unit position, given where it left. */
  function ShortPnl(p: Plan, cs: seq<Candle>, e: Exit): real
    requires 0 < |cs|
    requires e.Trailed? ==> e.bar <= e.last < |cs|
  {
    var half := Leg(p.ShortTarget(), p.entry, 0.5);
    match e
    case Untouched => Leg(cs[|cs| - 1].close, p.entry, 1.0)
    case Stopped(_) => Leg(p.ShortStop(), p.entry, 1.0)
    case Half(_) => half + Leg(cs[|cs| - 1].close, p.entry, 0.5)
    case Trailed(i, j) => half + Leg(ShortTrailStop(p, cs, i, j), p.entry, 0.5)
  }

  function ShortTrade(p: Plan, cs: seq<Candle>, from: nat): Trade
    requires 0 < |cs|
  {
    var e := ShortExit(p, cs, from, |cs|);
    var pnl := ShortPnl(p, cs, e);
    Trade(pnl, ReturnOf(p, pnl), ReasonOf(e))
  }

  /** The fills of a short that left at e. */
  function ShortFills(p: Plan, cs: seq<Candle>, e: Exit): seq<Fill>
    requires 0 < |cs|
    requires e.Trailed? ==> e.bar <= e.last < |cs|
  {
    var last := cs[|cs| - 1].close;
    match e
    case Untouched => [Fill(1.0, last)]
    case Stopped(_) => [Fill(1.0, p.entry + p.stopDist)]
    case Half(_) => [Fill(0.5, Max(p.entry - p.tpDist, 0.0)), Fill(0.5, last)]
    case Trailed(i, j) => [Fill(0.5, Max(p.entry - p.tpDist, 0.0)), Fill(0.5, LowSince(p, cs, i, j) + p.trail)]
  }

  lemma ShortFillsWorth(p: Plan, cs: seq<Candle>, e: Exit)
    requires 0 < |cs| && (e.Trailed? ==> e.bar <= e.last < |cs|)
    ensures Quantity(ShortFills(p, cs, e)) == 1.0
    ensures ShortPnl(p, cs, e) == -Worth(ShortFills(p, cs, e), p.entry)
  {
    var fs := ShortFills(p, cs, e);
    if e.Untouched? || e.Stopped? { OneFill(fs[0], p.entry); }
    else { TwoFills(fs[0], fs[1], p.entry); }
  }

  /** The trade is worth its fills: they close one unit, and the return is the profit per unit of entry price. */
  ghost predicate ShortBooks(t: Trade, fills: seq<Fill>, entry: real) {
    Quantity(fills) == 1.0 && t.pnl == -Worth(fills, entry) && (entry > 0.0 ==> t.ret * entry == t.pnl)
  }

  lemma ShortSettled(t: Trade, fills: seq<Fill>, entry: real)
    requires Quantity(fills) == 1.0 && t.pnl == -Worth(fills, entry) && t.ret == PerUnit(t.pnl, entry)
    ensures ShortBooks(t, fills, entry)
  {
    ReturnTimesEntry(t.pnl, entry);
  }

  lemma ShortTradeBooks(p: Plan, cs: seq<Candle>, from: nat)
    requires 0 < |cs|
    ensures ShortBooks(ShortTrade(p, cs, from), ShortFills(p, cs, ShortExit(p, cs, from, |cs|)), p.entry)
  {
    var e := ShortExit(p, cs, from, |cs|);
    ShortFillsWorth(p, cs, e);
    ShortSettled(ShortTrade(p, cs, from), ShortFills(p, cs, e), p.entry);
  }

  /** The short simulator, bar by bar. */
  method SimulateShortTrade(candles: seq<Candle>, entryIdx: nat, entry: real, atr: real,
                           stopMult: real, tpMult: real, trailMult: real)
    returns (t: Trade, ghost fills: seq<Fill>)
    requires 0 < |candles|
    ensures t == ShortTrade(PlanFrom(entry, atr, stopMult, tpMult, trailMult), candles, entryIdx)
    ensures var p := PlanFrom(entry, atr, stopMult, tpMult, trailMult); fills == ShortFills(p, candles, ShortExit(p, candles, entryIdx, |candles|))
    ensures ShortBooks(t, fills, entry)
  {
    var p := PlanFrom(entry, atr, stopMult, tpMult, trailMult);
    var stopPrice, takeProfitPrice := p.ShortStop(), p.ShortTarget();
    var remaining, realized := 1.0, 0.0;
    var halfClosed := false;
    var lowest, trailingStop := 0.0, 0.0;
    var reason := EndOfData;
    ghost var e := Untouched;
    var k := entryIdx;
    while k < |candles| && remaining > 0.0
      invariant entryIdx <= k && (k <= |candles| || k == entryIdx)
      invariant k <= |candles| ==> e == ShortExit(p, candles, entryIdx, k)
      invariant k > |candles| ==> e == Untouched
      invariant e.Untouched? ==> !halfClosed && remaining == 1.0 && realized == 0.0
      invariant e.Half? ==> halfClosed && remaining == 0.5 && realized == Leg(p.ShortTarget(), p.entry, 0.5)
      invariant e.Half? ==> lowest == LowSince(p, candles, e.bar, k - 1)
      invariant e.Stopped? || e.Trailed? ==> remaining == 0.0 && realized == ShortPnl(p, candles, e) && reason == ReasonOf(e)
      decreases |candles| - k
    {
      var c := candles[k];
      if !halfClosed {
        assert remaining == 1.0;
        if c.high >= stopPrice {
          realized := realized + Leg(stopPrice, p.entry, remaining);
          remaining := 0.0;
          reason := StopLoss;
        } else if c.low <= takeProfitPrice {
          var closeQty := remaining / 2.0;
          realized := realized + Leg(takeProfitPrice, p.entry, closeQty);
          remaining := remaining - closeQty;
          assert remaining == 0.5;
          halfClosed := true;
          lowest := Min(c.low, takeProfitPrice);
          trailingStop := lowest + p.trail;
          if c.high >= trailingStop {
            realized := realized + Leg(trailingStop, p.entry, remaining);
            remaining := 0.0;
            reason := TrailingStop;
          }
        }
      } else {
        lowest := Min(OrElse(lowest, c.low), c.low);
        trailingStop := lowest + p.trail;
        if c.high >= trailingStop {
          realized := realized + Leg(trailingStop, p.entry, remaining);
          remaining := 0.0;
          reason := TrailingStop;
        }
      }
      k := k + 1;
      e := ShortExit(p, candles, entryIdx, k);
    }
    if e.Stopped? || e.Trailed? {
      ShortExitStays(p, candles, entryIdx, k, |candles|);
    }
    if remaining > 0.0 {
      realized := realized + Leg(candles[|candles| - 1].close, p.entry, remaining);
      reason := EndOfData;
    }
    t := Trade(realized, ReturnOf(p, realized), reason);
    fills := ShortFills(p, candles, ShortExit(p, candles, entryIdx, |candles|));
    ShortTradeBooks(p, candles, entryIdx);
  }

  lemma {:induction false} ShortExitStays(p: Plan, cs: seq<Candle>, from: nat, m: nat, n: nat)
    requires m <= n <= |cs|
    requires ShortExit(p, cs, from, m).Stopped? || ShortExit(p, cs, from, m).Trailed?
    ensures ShortExit(p, cs, from, n) == ShortExit(p, cs, from, m)
  {
    if m < n { ShortExitStays(p, cs, from, m, n - 1); }
  }
}
